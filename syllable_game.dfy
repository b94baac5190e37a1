/**
 * The state and handlers of my-react-app/src/games/SyllableGame.jsx: the
 * player drags scrambled syllable tiles into an answer row, reorders and
 * removes them, and the row is judged whenever it holds as many tiles as the
 * word has syllables. The list logic on the answer row is given as functions;
 * the handlers are methods of `Game`, proved to follow those functions and to
 * keep the game's invariant.
 */
module SyllableGame {
  import opened Wrappers
  import opened GameCommon
  import StatsModel
  import StatsStorage
  import GameCommonProofs

  datatype Syllable = Syllable(text: string, pronunciation: string)

  /**
   * The text a syllable contributes to an answer, `syllable.text || syllable`:
   * a syllable without text contributes the object itself, which joins as
   * "[object Object]".
   */
  function SyllableText(s: Syllable): string {
    if s.text != "" then s.text else "[object Object]"
  }

  datatype Word = Word(word: string, phoneticSpelling: string, syllables: seq<Syllable>)

  /** An item of a bundled word file; a missing `phoneticSpelling` is "". */
  datatype BankItem = BankItem(word: string, phoneticSpelling: string, syllables: seq<Syllable>)

  /** The `map` over a word file in `handleStartGame`. */
  function FromBank(item: BankItem): Word {
    var word := Trim(item.word);
    Word(word, if item.phoneticSpelling != "" then item.phoneticSpelling else word, item.syllables)
  }

  /** A dragged palette tile: the syllable and its position in the palette. */
  datatype Tile = Tile(syllable: Syllable, index: nat)

  // ----- the answer row -----

  /** `selectedOrder.some((orderItem) => orderItem.index === index)`. */
  predicate IndexUsed(order: seq<Tile>, index: nat) {
    exists k :: 0 <= k < |order| && order[k].index == index
  }

  predicate DistinctIndices(order: seq<Tile>) {
    forall k, l :: 0 <= k < l < |order| ==> order[k].index != order[l].index
  }

  /** Every tile of the row is the palette tile at its index. */
  predicate FromPalette(order: seq<Tile>, palette: seq<Syllable>) {
    forall t :: t in order ==> t.index < |palette| && palette[t.index] == t.syllable
  }

  /** `handleDrop`: appends the tile unless a tile with its index is already in the row. */
  function Dropped(order: seq<Tile>, item: Tile): seq<Tile> {
    if IndexUsed(order, item.index) then order else order + [item]
  }

  /** `splice(at, 0, item)`. */
  function InsertAt(order: seq<Tile>, at: nat, item: Tile): (r: seq<Tile>)
    requires at <= |order|
  {
    order[..at] + [item] + order[at..]
  }

  /** `const [movedItem] = newOrder.splice(from, 1); newOrder.splice(to, 0, movedItem)`. */
  function MoveWithin(order: seq<Tile>, from: nat, to: nat): seq<Tile>
    requires from < |order| && to < |order|
  {
    InsertAt(RemoveAt(order, from), to, order[from])
  }

  /**
   * The calls `handleMove` receives: a palette tile dropped on the row tile
   * at `toIndex` (`fromIndex` -1 with the tile), or a row tile moved from
   * `fromIndex` to `toIndex`.
   */
  predicate MoveArguments(order: seq<Tile>, palette: seq<Syllable>, fromIndex: int, toIndex: nat, newItem: Option<Tile>) {
    toIndex < |order| &&
    ((fromIndex == -1 && newItem.Some? && newItem.value.index < |palette| && palette[newItem.value.index] == newItem.value.syllable)
     || (0 <= fromIndex < |order| && newItem.None?))
  }

  /** `handleMove`: the row it produces. */
  function Moved(order: seq<Tile>, fromIndex: int, toIndex: nat, newItem: Option<Tile>): seq<Tile>
    requires toIndex < |order|
    requires (fromIndex == -1 && newItem.Some?) || 0 <= fromIndex < |order|
  {
    if fromIndex == -1 && newItem.Some? then
      if IndexUsed(order, newItem.value.index) then order else InsertAt(order, toIndex, newItem.value)
    else if fromIndex != toIndex then MoveWithin(order, fromIndex, toIndex)
    else order
  }

  // ----- checkAnswer -----

  /** The answer, the row's texts joined. */
  function Answer(order: seq<Tile>): string {
    if order == [] then "" else SyllableText(order[0].syllable) + Answer(order[1..])
  }

  /** The expected answer, the word's syllable texts joined. */
  function Target(syllables: seq<Syllable>): string {
    if syllables == [] then "" else SyllableText(syllables[0]) + Target(syllables[1..])
  }

  /**
   * `checkAnswer`'s verdict: none while the row's length differs from the
   * syllable count, otherwise whether the joined texts agree.
   */
  function Judge(order: seq<Tile>, word: Word): (r: Option<bool>)
    ensures r.Some? <==> |order| == |word.syllables|
  {
    if |order| != |word.syllables| then None else Some(Answer(order) == Target(word.syllables))
  }

  /** The words of a game as `recordSession` receives them, `words.map((w) => w.word)`. */
  function WordTexts(words: seq<Word>): seq<string> {
    seq(|words|, k requires 0 <= k < |words| => words[k].word)
  }

  const GameType: string := "syllable"

  // ----- the game -----

  class Game {
    var words: seq<Word>
    var currentQuestionIndex: nat
    var scrambledSyllables: seq<Syllable>
    var selectedOrder: seq<Tile>
    var isCorrect: Option<bool>
    var gameStarted: bool
    var selectedDifficulty: Option<string>
    var error: string
    /** The `wordResults` ref: the last verdict on each word. */
    var wordResults: seq<bool>

    /**
     * What holds between handlers, except that the verdict may be stale: the
     * row is made of distinct palette tiles, the palette is a permutation of
     * the current word's syllables, and every word before the current one was
     * answered correctly (the Next button appears only after a correct answer).
     */
    ghost predicate Core()
      reads this
    {
      FromPalette(selectedOrder, scrambledSyllables) && DistinctIndices(selectedOrder) &&
      (gameStarted ==>
         |words| > 0 && currentQuestionIndex < |words| && |wordResults| == |words| &&
         multiset(scrambledSyllables) == multiset(words[currentQuestionIndex].syllables) &&
         forall k :: 0 <= k < currentQuestionIndex ==> wordResults[k]) &&
      (!gameStarted ==> words == [] && selectedOrder == [] && isCorrect.None? && wordResults == [])
    }

    /** `Core`, and a shown verdict is the verdict on the current row, also stored as the word's result. */
    ghost predicate Valid()
      reads this
    {
      Core() &&
      (gameStarted && isCorrect.Some? ==>
         isCorrect == Judge(selectedOrder, words[currentQuestionIndex]) &&
         wordResults[currentQuestionIndex] == isCorrect.value)
    }

    /** The initial `useState` values. */
    constructor ()
      ensures Valid() && !gameStarted
      ensures words == [] && selectedOrder == [] && scrambledSyllables == [] && wordResults == []
      ensures isCorrect == None && selectedDifficulty == None && error == ""
    {
      words := [];
      currentQuestionIndex := 0;
      scrambledSyllables := [];
      selectedOrder := [];
      isCorrect := None;
      gameStarted := false;
      selectedDifficulty := None;
      error := "";
      wordResults := [];
    }

    /**
     * `handleStartGame`: clears the row and the verdict, then starts on the
     * chosen words with a scrambled palette for the first one and every
     * result false, or shows the message and leaves the game as it was.
     * `wordsInput` is the text area; `process` is the language-model call.
     */
    method StartGame(difficulty: Option<string>, wordsInput: string, banks: Banks<BankItem>,
                     process: seq<string> -> Result<seq<Word>>)
      requires Valid()
      modifies this
      ensures Valid()
      ensures selectedDifficulty == difficulty && selectedOrder == [] && isCorrect == None
      ensures var chosen := ChooseWords(difficulty, wordsInput, banks, FromBank, process);
              match chosen
              case Err(message) =>
                error == message && words == old(words) && gameStarted == old(gameStarted) &&
                currentQuestionIndex == old(currentQuestionIndex) && wordResults == old(wordResults) &&
                scrambledSyllables == old(scrambledSyllables)
              case Ok(ws) =>
                error == "" && gameStarted && words == ws && currentQuestionIndex == 0 &&
                wordResults == AllFalse(|ws|) &&
                multiset(scrambledSyllables) == multiset(ws[0].syllables)
    {
      error := "";
      isCorrect := None;
      selectedOrder := [];
      selectedDifficulty := difficulty;
      var chosen := ChooseWords(difficulty, wordsInput, banks, FromBank, process);
      if chosen.Err? {
        error := chosen.error;
      } else {
        BeginWith(chosen.value);
      }
    }

    /** The success branch of `handleStartGame`: the first word is dealt. */
    method BeginWith(ws: seq<Word>)
      requires |ws| > 0 && selectedOrder == [] && isCorrect == None
      modifies this
      ensures Valid() && gameStarted && words == ws && currentQuestionIndex == 0 && wordResults == AllFalse(|ws|)
      ensures multiset(scrambledSyllables) == multiset(ws[0].syllables)
      ensures selectedOrder == [] && isCorrect == None
      ensures selectedDifficulty == old(selectedDifficulty) && error == old(error)
    {
      words := ws;
      currentQuestionIndex := 0;
      scrambledSyllables := Scramble(ws[0].syllables);
      gameStarted := true;
      wordResults := AllFalse(|ws|);
    }

    /**
     * `checkAnswer(newOrder)`, run right after the row is set to `newOrder`:
     * without a current word it does nothing; otherwise it shows the verdict
     * and, when there is one, stores it as the current word's result.
     */
    method CheckAnswer()
      requires Core()
      modifies this
      ensures Valid()
      ensures words == old(words) && currentQuestionIndex == old(currentQuestionIndex)
      ensures selectedOrder == old(selectedOrder) && scrambledSyllables == old(scrambledSyllables)
      ensures gameStarted == old(gameStarted) && selectedDifficulty == old(selectedDifficulty) && error == old(error)
      ensures currentQuestionIndex < |words| ==>
                isCorrect == Judge(selectedOrder, words[currentQuestionIndex]) &&
                wordResults == (if isCorrect.Some? then old(wordResults)[currentQuestionIndex := isCorrect.value]
                                else old(wordResults))
      ensures currentQuestionIndex >= |words| ==> isCorrect == old(isCorrect) && wordResults == old(wordResults)
    {
      if currentQuestionIndex >= |words| {
        return;
      }
      var word := words[currentQuestionIndex];
      if |selectedOrder| != |word.syllables| {
        isCorrect := None;
        return;
      }
      var correct := Answer(selectedOrder) == Target(word.syllables);
      isCorrect := Some(correct);
      wordResults := wordResults[currentQuestionIndex := correct];
    }

    /**
     * `handleDrop`: a palette tile dropped on the row is appended and the
     * row judged, unless its index is already in the row, when nothing
     * changes.
     */
    method HandleDrop(item: Tile)
      requires Valid() && gameStarted
      requires item.index < |scrambledSyllables| && scrambledSyllables[item.index] == item.syllable
      modifies this
      ensures Valid() && gameStarted
      ensures selectedOrder == Dropped(old(selectedOrder), item)
      ensures words == old(words) && currentQuestionIndex == old(currentQuestionIndex)
      ensures scrambledSyllables == old(scrambledSyllables)
      ensures IndexUsed(old(selectedOrder), item.index) ==>
                isCorrect == old(isCorrect) && wordResults == old(wordResults)
      ensures !IndexUsed(old(selectedOrder), item.index) ==>
                isCorrect == Judge(selectedOrder, words[currentQuestionIndex]) &&
                wordResults == (if isCorrect.Some? then old(wordResults)[currentQuestionIndex := isCorrect.value]
                                else old(wordResults))
      ensures selectedDifficulty == old(selectedDifficulty) && error == old(error)
    {
      if !IndexUsed(selectedOrder, item.index) {
        var newOrder := selectedOrder + [item];
        DroppedKeepsRow(selectedOrder, scrambledSyllables, item);
        selectedOrder := newOrder;
        CheckAnswer();
      }
    }

    /**
     * `handleMove`: a palette tile dropped on a row tile is inserted at that
     * tile's place unless its index is already used; a row tile dragged onto
     * another moves there; the row is judged either way.
     */
    method HandleMove(fromIndex: int, toIndex: nat, newItem: Option<Tile>)
      requires Valid() && gameStarted
      requires MoveArguments(selectedOrder, scrambledSyllables, fromIndex, toIndex, newItem)
      modifies this
      ensures Valid() && gameStarted
      ensures selectedOrder == Moved(old(selectedOrder), fromIndex, toIndex, newItem)
      ensures words == old(words) && currentQuestionIndex == old(currentQuestionIndex)
      ensures scrambledSyllables == old(scrambledSyllables)
      ensures isCorrect == Judge(selectedOrder, words[currentQuestionIndex])
      ensures wordResults == (if isCorrect.Some? then old(wordResults)[currentQuestionIndex := isCorrect.value]
                              else old(wordResults))
      ensures selectedDifficulty == old(selectedDifficulty) && error == old(error)
    {
      var newOrder := selectedOrder;
      if fromIndex == -1 && newItem.Some? {
        if !IndexUsed(newOrder, newItem.value.index) {
          newOrder := newOrder[..toIndex] + [newItem.value] + newOrder[toIndex..];
        }
      } else if fromIndex != toIndex {
        var movedItem := newOrder[fromIndex];
        newOrder := newOrder[..fromIndex] + newOrder[fromIndex + 1..];
        newOrder := newOrder[..toIndex] + [movedItem] + newOrder[toIndex..];
      }
      MovedKeepsRow(selectedOrder, scrambledSyllables, fromIndex, toIndex, newItem);
      selectedOrder := newOrder;
      CheckAnswer();
    }

    /** `handleRemove`: drops the row tile at `index` and judges the row. */
    method HandleRemove(index: int)
      requires Valid() && gameStarted
      modifies this
      ensures Valid() && gameStarted
      ensures selectedOrder == RemoveAt(old(selectedOrder), index)
      ensures words == old(words) && currentQuestionIndex == old(currentQuestionIndex)
      ensures scrambledSyllables == old(scrambledSyllables)
      ensures isCorrect == Judge(selectedOrder, words[currentQuestionIndex])
      ensures wordResults == (if isCorrect.Some? then old(wordResults)[currentQuestionIndex := isCorrect.value]
                              else old(wordResults))
      ensures selectedDifficulty == old(selectedDifficulty) && error == old(error)
    {
      RemovedKeepsRow(selectedOrder, scrambledSyllables, index);
      selectedOrder := RemoveAt(selectedOrder, index);
      CheckAnswer();
    }

    /**
     * `handleNext`, offered only while the verdict is correct: moves to the
     * next word with a fresh palette and an empty row, or, after the last
     * word, records the session and returns to the start screen. Every word
     * was then answered correctly, so the session records as many correct
     * words as words. The elapsed time, id and date are the caller's.
     */
    method HandleNext(store: StatsStorage.Store, timeSpent: nat, id: string, date: string, writeFails: bool)
      requires Valid() && gameStarted && isCorrect == Some(true)
      modifies this, store
      ensures Valid()
      ensures old(currentQuestionIndex) < |old(words)| - 1 ==>
                gameStarted && words == old(words) && currentQuestionIndex == old(currentQuestionIndex) + 1 &&
                multiset(scrambledSyllables) == multiset(words[currentQuestionIndex].syllables) &&
                selectedOrder == [] && isCorrect == None && wordResults == old(wordResults) &&
                selectedDifficulty == old(selectedDifficulty) && store.slot == old(store.slot)
      ensures old(currentQuestionIndex) == |old(words)| - 1 ==>
                var session := Summary(GameType, old(selectedDifficulty), old(wordResults), WordTexts(old(words)), timeSpent);
                session.wordsCorrect == session.wordsCompleted == |old(words)| &&
                store.slot == (if writeFails then old(store.slot)
                               else Some(StatsModel.Recorded(StatsModel.Loaded(old(store.slot)), session, id, date))) &&
                !gameStarted && words == [] && currentQuestionIndex == 0 && selectedDifficulty == None
      ensures error == old(error)
    {
      if currentQuestionIndex < |words| - 1 {
        NextQuestion();
      } else {
        var session := Summary(GameType, selectedDifficulty, wordResults, WordTexts(words), timeSpent);
        AllCorrectAtEnd(wordResults, currentQuestionIndex);
        var _ := store.RecordSession(session, id, date, writeFails);
        EndGame();
      }
    }

    /** The first branch of `handleNext`: the next word's syllables are scrambled. */
    method NextQuestion()
      requires Valid() && gameStarted && isCorrect == Some(true) && currentQuestionIndex < |words| - 1
      modifies this
      ensures Valid() && gameStarted && words == old(words) && currentQuestionIndex == old(currentQuestionIndex) + 1
      ensures multiset(scrambledSyllables) == multiset(words[currentQuestionIndex].syllables)
      ensures selectedOrder == [] && isCorrect == None && wordResults == old(wordResults)
      ensures selectedDifficulty == old(selectedDifficulty) && error == old(error)
    {
      var nextIndex := currentQuestionIndex + 1;
      assert wordResults[currentQuestionIndex];
      currentQuestionIndex := nextIndex;
      scrambledSyllables := Scramble(words[nextIndex].syllables);
      selectedOrder := [];
      isCorrect := None;
    }

    /** The state `handleNext` returns to once the last word is done. */
    method EndGame()
      modifies this
      ensures Valid() && !gameStarted && words == [] && currentQuestionIndex == 0 && selectedDifficulty == None
      ensures selectedOrder == [] && isCorrect == None && wordResults == []
      ensures scrambledSyllables == old(scrambledSyllables) && error == old(error)
    {
      gameStarted := false;
      words := [];
      currentQuestionIndex := 0;
      selectedOrder := [];
      isCorrect := None;
      selectedDifficulty := None;
      wordResults := [];
    }
  }

  // ----- what the handlers rely on -----

  lemma DroppedKeepsRow(order: seq<Tile>, palette: seq<Syllable>, item: Tile)
    requires FromPalette(order, palette) && DistinctIndices(order)
    requires item.index < |palette| && palette[item.index] == item.syllable
    ensures FromPalette(Dropped(order, item), palette) && DistinctIndices(Dropped(order, item))
  {
  }

  /** Where `MoveWithin` takes the tile at each position of its result from. */
  function MoveSource(from: nat, to: nat, k: nat): nat {
    if k == to then from
    else
      var m := if k < to then k else k - 1;
      if m < from then m else m + 1
  }

  /** A move is a rearrangement: each result tile comes from its own position. */
  lemma MoveWithinSources(order: seq<Tile>, from: nat, to: nat)
    requires from < |order| && to < |order|
    ensures |MoveWithin(order, from, to)| == |order|
    ensures forall k :: 0 <= k < |order| ==>
              MoveSource(from, to, k) < |order| && MoveWithin(order, from, to)[k] == order[MoveSource(from, to, k)]
    ensures forall k, l :: 0 <= k < l < |order| ==> MoveSource(from, to, k) != MoveSource(from, to, l)
  {
    RemoveAtShifts(order, from);
  }

  lemma InsertKeepsRow(order: seq<Tile>, palette: seq<Syllable>, at: nat, item: Tile)
    requires FromPalette(order, palette) && DistinctIndices(order)
    requires at <= |order| && !IndexUsed(order, item.index)
    requires item.index < |palette| && palette[item.index] == item.syllable
    ensures FromPalette(InsertAt(order, at, item), palette) && DistinctIndices(InsertAt(order, at, item))
  {
    var r := InsertAt(order, at, item);
    assert forall k :: 0 <= k < |r| ==> r[k] == (if k < at then order[k] else if k == at then item else order[k - 1]);
  }

  lemma MoveWithinKeepsRow(order: seq<Tile>, palette: seq<Syllable>, from: nat, to: nat)
    requires FromPalette(order, palette) && DistinctIndices(order)
    requires from < |order| && to < |order|
    ensures FromPalette(MoveWithin(order, from, to), palette) && DistinctIndices(MoveWithin(order, from, to))
  {
    var r := MoveWithin(order, from, to);
    MoveWithinSources(order, from, to);
    forall k, l | 0 <= k < l < |r| ensures r[k].index != r[l].index {
      assert r[k] == order[MoveSource(from, to, k)];
      assert r[l] == order[MoveSource(from, to, l)];
    }
    forall t | t in r ensures t.index < |palette| && palette[t.index] == t.syllable {
      var k :| 0 <= k < |r| && r[k] == t;
      assert order[MoveSource(from, to, k)] in order;
    }
  }

  lemma MovedKeepsRow(order: seq<Tile>, palette: seq<Syllable>, fromIndex: int, toIndex: nat, newItem: Option<Tile>)
    requires FromPalette(order, palette) && DistinctIndices(order)
    requires MoveArguments(order, palette, fromIndex, toIndex, newItem)
    ensures var r := Moved(order, fromIndex, toIndex, newItem);
            FromPalette(r, palette) && DistinctIndices(r)
  {
    if fromIndex == -1 && newItem.Some? {
      if !IndexUsed(order, newItem.value.index) {
        InsertKeepsRow(order, palette, toIndex, newItem.value);
      }
    } else if fromIndex != toIndex {
      MoveWithinKeepsRow(order, palette, fromIndex, toIndex);
    }
  }

  lemma RemovedKeepsRow(order: seq<Tile>, palette: seq<Syllable>, index: int)
    requires FromPalette(order, palette) && DistinctIndices(order)
    ensures FromPalette(RemoveAt(order, index), palette) && DistinctIndices(RemoveAt(order, index))
  {
    if 0 <= index < |order| {
      RemoveAtShifts(order, index);
      var r := RemoveAt(order, index);
      forall k, l | 0 <= k < l < |r| ensures r[k].index != r[l].index {
        assert r[k] == order[if k < index then k else k + 1];
        assert r[l] == order[if l < index then l else l + 1];
      }
      forall t | t in r ensures t.index < |palette| && palette[t.index] == t.syllable {
        var k :| 0 <= k < |r| && r[k] == t;
        assert order[if k < index then k else k + 1] in order;
      }
    }
  }

  /** When the last word is judged correct, every word was. */
  lemma AllCorrectAtEnd(results: seq<bool>, last: nat)
    requires |results| == last + 1 && results[last]
    requires forall k :: 0 <= k < last ==> results[k]
    ensures CountTrue(results) == |results|
  {
    GameCommonProofs.CountTrueBound(results);
  }
}
