/**
 * The state and handlers of my-react-app/src/games/LetterSoundGame.jsx: the
 * player pairs scrambled sound tiles with scrambled letter tiles of a word;
 * a pair is right when both tiles come from the same letter-sound of the
 * word, and the word is decided once no tile is left. The handlers are
 * methods of `Game`, proved to keep every tile either available or in
 * exactly one pair.
 */
module LetterSoundGame {
  import opened Wrappers
  import opened GameCommon
  import StatsModel
  import StatsStorage
  import GameCommonProofs

  datatype LetterSound = LetterSound(grapheme: string, phoneme: string, readablePhonetic: string, position: int)

  datatype Word = Word(word: string, phoneticSpelling: string, letterSounds: seq<LetterSound>)

  /** An item of a bundled word file; a missing string field is "". */
  datatype BankItem = BankItem(word: string, phoneticSpelling: string, letterSounds: seq<LetterSound>)

  /** `ls.readablePhonetic || ls.grapheme`. */
  function Readable(ls: LetterSound): string {
    if ls.readablePhonetic != "" then ls.readablePhonetic else ls.grapheme
  }

  /** The `map` over a word file in `handleStartGame`. */
  function FromBank(item: BankItem): Word {
    var word := Trim(item.word);
    Word(word, if item.phoneticSpelling != "" then item.phoneticSpelling else word, WithReadable(item.letterSounds))
  }

  /** The inner `map`: each letter-sound with `readablePhonetic` defaulted to its grapheme. */
  function WithReadable(ls: seq<LetterSound>): seq<LetterSound> {
    if ls == [] then []
    else [LetterSound(ls[0].grapheme, ls[0].phoneme, Readable(ls[0]), ls[0].position)] + WithReadable(ls[1..])
  }

  /** A sound or letter tile; `originalIndex` is the letter-sound's place in the word. */
  datatype Tile = Tile(grapheme: string, phoneme: string, readablePhonetic: string, originalIndex: nat)

  /** The tiles `initializeGame` builds, one per letter-sound, numbered by position. */
  function Tiles(ls: seq<LetterSound>): (r: seq<Tile>)
    ensures |r| == |ls|
  {
    seq(|ls|, k requires 0 <= k < |ls| => Tile(ls[k].grapheme, ls[k].phoneme, Readable(ls[k]), k))
  }

  datatype Pair = Pair(sound: Tile, letter: Tile, isCorrect: bool, soundIndex: nat, letterIndex: nat)

  /** The pair `handleLetterClick` creates; it is right when both tiles share their index. */
  function MakePair(sound: Tile, letter: Tile, soundIndex: nat, letterIndex: nat): Pair {
    Pair(sound, letter, sound.originalIndex == letter.originalIndex, soundIndex, letterIndex)
  }

  function Sounds(pairs: seq<Pair>): (r: seq<Tile>)
    ensures |r| == |pairs|
  {
    seq(|pairs|, k requires 0 <= k < |pairs| => pairs[k].sound)
  }

  function Letters(pairs: seq<Pair>): (r: seq<Tile>)
    ensures |r| == |pairs|
  {
    seq(|pairs|, k requires 0 <= k < |pairs| => pairs[k].letter)
  }

  /** `allPairs.every((pair) => pair.isCorrect)`. */
  predicate AllPairsCorrect(pairs: seq<Pair>) {
    forall k :: 0 <= k < |pairs| ==> pairs[k].isCorrect
  }

  /** Each pair's verdict is the comparison of its tiles' indices. */
  predicate PairsJudged(pairs: seq<Pair>) {
    forall k :: 0 <= k < |pairs| ==> pairs[k].isCorrect == (pairs[k].sound.originalIndex == pairs[k].letter.originalIndex)
  }

  /**
   * Every tile of the word is either available or in a pair, once: the
   * available tiles and the paired tiles together are the word's tiles, on
   * the sound side and on the letter side.
   */
  predicate Conserved(sounds: seq<Tile>, letters: seq<Tile>, pairs: seq<Pair>, word: Word) {
    multiset(sounds) + multiset(Sounds(pairs)) == multiset(Tiles(word.letterSounds)) &&
    multiset(letters) + multiset(Letters(pairs)) == multiset(Tiles(word.letterSounds))
  }

  /** A selection is a position of its list, and at most one tile is selected. */
  predicate SelectionsValid(sound: Option<nat>, letter: Option<nat>, soundCount: nat, letterCount: nat) {
    (sound.Some? ==> sound.value < soundCount) &&
    (letter.Some? ==> letter.value < letterCount) &&
    (sound.None? || letter.None?)
  }

  /** A game in progress: one result per word, and every word before the current one a success. */
  predicate Progress(words: seq<Word>, current: nat, results: seq<bool>) {
    |words| > 0 && current < |words| && |results| == |words| &&
    forall k :: 0 <= k < current ==> results[k]
  }

  function WordTexts(words: seq<Word>): seq<string> {
    seq(|words|, k requires 0 <= k < |words| => words[k].word)
  }

  const GameType: string := "lettersound"

  class Game {
    var words: seq<Word>
    var currentWordIndex: nat
    var availableSounds: seq<Tile>
    var availableLetters: seq<Tile>
    var matchedPairs: seq<Pair>
    var selectedSoundIndex: Option<nat>
    var selectedLetterIndex: Option<nat>
    var allCorrect: bool
    var gameStarted: bool
    var selectedDifficulty: Option<string>
    var error: string
    /** The `wordResults` ref: the last completion verdict on each word. */
    var wordResults: seq<bool>

    /**
     * What holds between handlers, except that a just-completed word may not
     * be decided yet: tiles are conserved, pair verdicts are right, a
     * selection is a position of its list and at most one tile is selected,
     * a shown success means every tile is correctly paired, and every word
     * before the current one was a success (the Next button appears only
     * then).
     */
    ghost predicate Core()
      reads this
    {
      PairsJudged(matchedPairs) &&
      SelectionsValid(selectedSoundIndex, selectedLetterIndex, |availableSounds|, |availableLetters|) &&
      (gameStarted ==>
         Progress(words, currentWordIndex, wordResults) &&
         Conserved(availableSounds, availableLetters, matchedPairs, words[currentWordIndex])) &&
      (allCorrect ==>
         gameStarted && availableSounds == [] && availableLetters == [] &&
         AllPairsCorrect(matchedPairs) && wordResults[currentWordIndex]) &&
      (!gameStarted ==>
         words == [] && availableSounds == [] && availableLetters == [] && matchedPairs == [] && wordResults == [])
    }

    /** `Core`, and once every tile is paired the word is decided: success iff every pair is right. */
    ghost predicate Valid()
      reads this
    {
      Core() &&
      (gameStarted && availableSounds == [] && availableLetters == [] && matchedPairs != [] ==>
         allCorrect == AllPairsCorrect(matchedPairs) && wordResults[currentWordIndex] == allCorrect)
    }

    /** The initial `useState` values. */
    constructor ()
      ensures Valid() && !gameStarted && words == [] && error == ""
      ensures availableSounds == [] && availableLetters == [] && matchedPairs == []
      ensures selectedSoundIndex == None && selectedLetterIndex == None && !allCorrect
    {
      words := [];
      currentWordIndex := 0;
      availableSounds := [];
      availableLetters := [];
      matchedPairs := [];
      selectedSoundIndex := None;
      selectedLetterIndex := None;
      allCorrect := false;
      gameStarted := false;
      selectedDifficulty := None;
      error := "";
      wordResults := [];
    }

    /**
     * `initializeGame`: deals the word's tiles, scrambled separately on the
     * sound side and the letter side, and clears the pairs, both selections
     * and the success flag.
     */
    method InitializeGame(word: Word)
      modifies this
      ensures multiset(availableSounds) == multiset(Tiles(word.letterSounds))
      ensures multiset(availableLetters) == multiset(Tiles(word.letterSounds))
      ensures matchedPairs == [] && selectedSoundIndex == None && selectedLetterIndex == None && !allCorrect
      ensures words == old(words) && currentWordIndex == old(currentWordIndex) && gameStarted == old(gameStarted)
      ensures wordResults == old(wordResults) && selectedDifficulty == old(selectedDifficulty) && error == old(error)
    {
      var sounds := Tiles(word.letterSounds);
      var letters := Tiles(word.letterSounds);
      availableSounds := Scramble(sounds);
      availableLetters := Scramble(letters);
      matchedPairs := [];
      selectedSoundIndex := None;
      selectedLetterIndex := None;
      allCorrect := false;
    }

    /**
     * `handleStartGame`, offered on the start screen only: clears the pairs,
     * selections and success flag, then deals the first of the chosen words
     * with every result false, or shows the message.
     */
    method StartGame(difficulty: Option<string>, wordsInput: string, banks: Banks<BankItem>,
                     process: seq<string> -> Result<seq<Word>>)
      requires Valid() && !gameStarted
      modifies this
      ensures Valid()
      ensures selectedDifficulty == difficulty && selectedSoundIndex == None && selectedLetterIndex == None
      ensures !allCorrect
      ensures matchedPairs == []
      ensures var chosen := ChooseWords(difficulty, wordsInput, banks, FromBank, process);
              chosen.Err? ==> error == chosen.error && !gameStarted && words == old(words)
      ensures var chosen := ChooseWords(difficulty, wordsInput, banks, FromBank, process);
              chosen.Ok? ==>
                error == "" && gameStarted && words == chosen.value && currentWordIndex == 0 &&
                wordResults == AllFalse(|words|) &&
                multiset(availableSounds) == multiset(Tiles(words[0].letterSounds)) &&
                multiset(availableLetters) == multiset(Tiles(words[0].letterSounds))
    {
      error := "";
      matchedPairs := [];
      selectedSoundIndex := None;
      selectedLetterIndex := None;
      allCorrect := false;
      selectedDifficulty := difficulty;
      var chosen := ChooseWords(difficulty, wordsInput, banks, FromBank, process);
      if chosen.Err? {
        error := chosen.error;
      } else {
        BeginWith(chosen.value);
      }
    }

    /** The success branch of `handleStartGame`: the first word is dealt. */
    method BeginWith(ws: seq<Word>)
      requires |ws| > 0
      modifies this
      ensures Valid() && gameStarted && words == ws && currentWordIndex == 0 && wordResults == AllFalse(|ws|)
      ensures multiset(availableSounds) == multiset(Tiles(ws[0].letterSounds))
      ensures multiset(availableLetters) == multiset(Tiles(ws[0].letterSounds))
      ensures matchedPairs == [] && selectedSoundIndex == None && selectedLetterIndex == None && !allCorrect
      ensures selectedDifficulty == old(selectedDifficulty) && error == old(error)
    {
      words := ws;
      currentWordIndex := 0;
      InitializeGame(ws[0]);
      gameStarted := true;
      wordResults := AllFalse(|ws|);
      ConservedAtDeal(availableSounds, availableLetters, ws[0]);
      assert Progress(words, currentWordIndex, wordResults);
    }

    /** `handleSoundClick`: clicking the selected sound deselects it; any other selects it and drops the letter selection. */
    method HandleSoundClick(index: nat)
      requires Valid() && gameStarted && index < |availableSounds|
      modifies this
      ensures Valid()
      ensures old(selectedSoundIndex) == Some(index) ==>
                selectedSoundIndex == None && selectedLetterIndex == old(selectedLetterIndex)
      ensures old(selectedSoundIndex) != Some(index) ==>
                selectedSoundIndex == Some(index) && selectedLetterIndex == None
      ensures availableSounds == old(availableSounds) && availableLetters == old(availableLetters)
      ensures matchedPairs == old(matchedPairs) && allCorrect == old(allCorrect) && wordResults == old(wordResults)
      ensures words == old(words) && currentWordIndex == old(currentWordIndex) && gameStarted
      ensures selectedDifficulty == old(selectedDifficulty) && error == old(error)
    {
      if selectedSoundIndex == Some(index) {
        selectedSoundIndex := None;
      } else {
        selectedSoundIndex := Some(index);
        selectedLetterIndex := None;
      }
    }

    /**
     * `checkCompletion`, run right after a match with the new lists and
     * pairs: once both lists are empty, the word is a success exactly when
     * every pair is right, and that is stored as the word's result.
     */
    method CheckCompletion()
      requires Core() && gameStarted
      modifies this
      ensures Valid() && gameStarted
      ensures words == old(words) && currentWordIndex == old(currentWordIndex)
      ensures availableSounds == old(availableSounds) && availableLetters == old(availableLetters)
      ensures matchedPairs == old(matchedPairs)
      ensures selectedSoundIndex == old(selectedSoundIndex) && selectedLetterIndex == old(selectedLetterIndex)
      ensures availableSounds == [] && availableLetters == [] ==>
                currentWordIndex < |old(wordResults)| &&
                allCorrect == AllPairsCorrect(matchedPairs) &&
                wordResults == old(wordResults)[currentWordIndex := allCorrect]
      ensures !(availableSounds == [] && availableLetters == []) ==>
                allCorrect == old(allCorrect) && wordResults == old(wordResults)
      ensures selectedDifficulty == old(selectedDifficulty) && error == old(error)
    {
      if availableSounds == [] && availableLetters == [] {
        var allPairsCorrect := AllPairsCorrect(matchedPairs);
        allCorrect := allPairsCorrect;
        wordResults := wordResults[currentWordIndex := allPairsCorrect];
      }
    }

    /**
     * `handleLetterClick`: clicking the selected letter deselects it; with a
     * sound selected, the two tiles leave their lists as one new pair and
     * both selections clear, and the word may complete; otherwise the letter
     * becomes the selection.
     */
    method HandleLetterClick(index: nat)
      requires Valid() && gameStarted && index < |availableLetters|
      modifies this
      ensures Valid() && gameStarted
      ensures words == old(words) && currentWordIndex == old(currentWordIndex)
      ensures old(selectedLetterIndex) == Some(index) ==>
                selectedLetterIndex == None && selectedSoundIndex == old(selectedSoundIndex) &&
                availableSounds == old(availableSounds) && availableLetters == old(availableLetters) &&
                matchedPairs == old(matchedPairs) && allCorrect == old(allCorrect) && wordResults == old(wordResults)
      ensures old(selectedLetterIndex) != Some(index) && old(selectedSoundIndex).Some? ==>
                var s := old(selectedSoundIndex).value;
                s < |old(availableSounds)| &&
                matchedPairs == old(matchedPairs) + [MakePair(old(availableSounds)[s], old(availableLetters)[index], s, index)] &&
                availableSounds == RemoveAt(old(availableSounds), s) &&
                availableLetters == RemoveAt(old(availableLetters), index) &&
                selectedSoundIndex == None && selectedLetterIndex == None &&
                (availableSounds == [] && availableLetters == [] ==>
                   allCorrect == AllPairsCorrect(matchedPairs) &&
                   wordResults == old(wordResults)[currentWordIndex := allCorrect]) &&
                (!(availableSounds == [] && availableLetters == []) ==>
                   allCorrect == old(allCorrect) && wordResults == old(wordResults))
      ensures old(selectedLetterIndex) != Some(index) && old(selectedSoundIndex).None? ==>
                selectedLetterIndex == Some(index) && selectedSoundIndex == None &&
                availableSounds == old(availableSounds) && availableLetters == old(availableLetters) &&
                matchedPairs == old(matchedPairs) && allCorrect == old(allCorrect) && wordResults == old(wordResults)
      ensures selectedDifficulty == old(selectedDifficulty) && error == old(error)
    {
      if selectedLetterIndex == Some(index) {
        selectedLetterIndex := None;
      } else if selectedSoundIndex.Some? {
        MatchSelected(index);
        CheckCompletion();
      } else {
        selectedLetterIndex := Some(index);
        selectedSoundIndex := None;
      }
    }

    /**
     * The match in `handleLetterClick`: the selected sound and the clicked
     * letter leave their lists as one new pair, and both selections clear.
     * The word is not decided yet.
     */
    method MatchSelected(index: nat)
      requires Valid() && gameStarted && index < |availableLetters| && selectedSoundIndex.Some?
      modifies this
      ensures Core() && gameStarted
      ensures words == old(words) && currentWordIndex == old(currentWordIndex) && wordResults == old(wordResults)
      ensures var s := old(selectedSoundIndex).value;
              s < |old(availableSounds)| &&
              matchedPairs == old(matchedPairs) + [MakePair(old(availableSounds)[s], old(availableLetters)[index], s, index)] &&
              availableSounds == RemoveAt(old(availableSounds), s) &&
              availableLetters == RemoveAt(old(availableLetters), index)
      ensures selectedSoundIndex == None && selectedLetterIndex == None && allCorrect == old(allCorrect)
      ensures selectedDifficulty == old(selectedDifficulty) && error == old(error)
    {
      var soundIndex := selectedSoundIndex.value;
      var sound := availableSounds[soundIndex];
      var letter := availableLetters[index];
      var newPair := MakePair(sound, letter, soundIndex, index);
      assert !allCorrect;
      assert Progress(words, currentWordIndex, wordResults);
      MatchConserves(availableSounds, availableLetters, matchedPairs, words[currentWordIndex], soundIndex, index);
      PairsJudgedAppend(matchedPairs, sound, letter, soundIndex, index);
      matchedPairs := matchedPairs + [newPair];
      availableSounds := RemoveAt(availableSounds, soundIndex);
      availableLetters := RemoveAt(availableLetters, index);
      selectedSoundIndex := None;
      selectedLetterIndex := None;
    }

    /**
     * `handleUnmatch`: removes the chosen pair, puts its sound and letter
     * back at the ends of their lists, and withdraws the success flag.
     * Selections are kept.
     */
    method HandleUnmatch(pairIndex: nat)
      requires Valid() && gameStarted && pairIndex < |matchedPairs|
      modifies this
      ensures Valid() && gameStarted
      ensures matchedPairs == RemoveAt(old(matchedPairs), pairIndex)
      ensures availableSounds == old(availableSounds) + [old(matchedPairs)[pairIndex].sound]
      ensures availableLetters == old(availableLetters) + [old(matchedPairs)[pairIndex].letter]
      ensures !allCorrect
      ensures selectedSoundIndex == old(selectedSoundIndex) && selectedLetterIndex == old(selectedLetterIndex)
      ensures words == old(words) && currentWordIndex == old(currentWordIndex) && wordResults == old(wordResults)
      ensures selectedDifficulty == old(selectedDifficulty) && error == old(error)
    {
      var pair := matchedPairs[pairIndex];
      var newPairs := RemoveAt(matchedPairs, pairIndex);
      UnmatchConserves(availableSounds, availableLetters, matchedPairs, words[currentWordIndex], pairIndex);
      availableSounds := availableSounds + [pair.sound];
      availableLetters := availableLetters + [pair.letter];
      matchedPairs := newPairs;
      allCorrect := false;
    }

    /**
     * `handleNext`, offered only after a success: deals the next word, or,
     * after the last one, records the session, in which every word counts as
     * correct, and returns to the start screen. The elapsed time, id and date
     * are the caller's.
     */
    method HandleNext(store: StatsStorage.Store, timeSpent: nat, id: string, date: string, writeFails: bool)
      requires Valid() && gameStarted && allCorrect
      modifies this, store
      ensures Valid()
      ensures old(currentWordIndex) < |old(words)| - 1 ==>
                gameStarted && words == old(words) && currentWordIndex == old(currentWordIndex) + 1 &&
                matchedPairs == [] && !allCorrect && wordResults == old(wordResults) &&
                multiset(availableSounds) == multiset(Tiles(words[currentWordIndex].letterSounds)) &&
                multiset(availableLetters) == multiset(Tiles(words[currentWordIndex].letterSounds)) &&
                selectedSoundIndex == None && selectedLetterIndex == None &&
                selectedDifficulty == old(selectedDifficulty) && store.slot == old(store.slot)
      ensures old(currentWordIndex) == |old(words)| - 1 ==>
                var session := Summary(GameType, old(selectedDifficulty), old(wordResults), WordTexts(old(words)), timeSpent);
                session.wordsCorrect == session.wordsCompleted == |old(words)| &&
                store.slot == (if writeFails then old(store.slot)
                               else Some(StatsModel.Recorded(StatsModel.Loaded(old(store.slot)), session, id, date))) &&
                !gameStarted && words == [] && currentWordIndex == 0 && selectedDifficulty == None
      ensures error == old(error)
    {
      if currentWordIndex < |words| - 1 {
        NextWord();
      } else {
        FinishGame(store, timeSpent, id, date, writeFails);
      }
    }

    /** The first branch of `handleNext`: the next word is dealt. */
    method NextWord()
      requires Valid() && gameStarted && allCorrect && currentWordIndex < |words| - 1
      modifies this
      ensures Valid() && gameStarted && words == old(words) && currentWordIndex == old(currentWordIndex) + 1
      ensures matchedPairs == [] && !allCorrect && wordResults == old(wordResults)
      ensures multiset(availableSounds) == multiset(Tiles(words[currentWordIndex].letterSounds))
      ensures multiset(availableLetters) == multiset(Tiles(words[currentWordIndex].letterSounds))
      ensures selectedSoundIndex == None && selectedLetterIndex == None
      ensures selectedDifficulty == old(selectedDifficulty) && error == old(error)
    {
      var nextIndex := currentWordIndex + 1;
      assert Progress(words, nextIndex, wordResults);
      currentWordIndex := nextIndex;
      InitializeGame(words[nextIndex]);
      ConservedAtDeal(availableSounds, availableLetters, words[nextIndex]);
    }

    /** The second branch of `handleNext`: the session is recorded and the game ends. */
    method FinishGame(store: StatsStorage.Store, timeSpent: nat, id: string, date: string, writeFails: bool)
      requires Valid() && gameStarted && allCorrect && currentWordIndex == |words| - 1
      modifies this, store
      ensures Valid()
      ensures var session := Summary(GameType, old(selectedDifficulty), old(wordResults), WordTexts(old(words)), timeSpent);
              session.wordsCorrect == session.wordsCompleted == |old(words)| &&
              store.slot == (if writeFails then old(store.slot)
                             else Some(StatsModel.Recorded(StatsModel.Loaded(old(store.slot)), session, id, date)))
      ensures !gameStarted && words == [] && currentWordIndex == 0 && selectedDifficulty == None
      ensures error == old(error)
    {
      var session := Summary(GameType, selectedDifficulty, wordResults, WordTexts(words), timeSpent);
      assert forall k :: 0 <= k < |wordResults| ==> wordResults[k];
      GameCommonProofs.CountTrueBound(wordResults);
      var _ := store.RecordSession(session, id, date, writeFails);
      EndGame();
    }

    /** The state `handleNext` returns to once the last word is done. */
    method EndGame()
      requires Valid() && allCorrect
      modifies this
      ensures Valid() && !gameStarted && words == [] && currentWordIndex == 0 && selectedDifficulty == None
      ensures matchedPairs == [] && availableSounds == [] && availableLetters == [] && !allCorrect && wordResults == []
      ensures error == old(error)
    {
      assert selectedSoundIndex == None && selectedLetterIndex == None;
      gameStarted := false;
      words := [];
      currentWordIndex := 0;
      matchedPairs := [];
      availableSounds := [];
      availableLetters := [];
      allCorrect := false;
      selectedDifficulty := None;
      wordResults := [];
    }
  }

  // ----- what the handlers rely on -----

  lemma ConservedAtDeal(sounds: seq<Tile>, letters: seq<Tile>, word: Word)
    requires multiset(sounds) == multiset(Tiles(word.letterSounds))
    requires multiset(letters) == multiset(Tiles(word.letterSounds))
    ensures Conserved(sounds, letters, [], word)
  {
    assert Sounds([]) == [] && Letters([]) == [];
  }

  lemma PairsJudgedAppend(pairs: seq<Pair>, sound: Tile, letter: Tile, s: nat, l: nat)
    requires PairsJudged(pairs)
    ensures PairsJudged(pairs + [MakePair(sound, letter, s, l)])
  {
  }

  lemma MatchConserves(sounds: seq<Tile>, letters: seq<Tile>, pairs: seq<Pair>, word: Word, s: nat, l: nat)
    requires Conserved(sounds, letters, pairs, word)
    requires s < |sounds| && l < |letters|
    ensures Conserved(RemoveAt(sounds, s), RemoveAt(letters, l), pairs + [MakePair(sounds[s], letters[l], s, l)], word)
  {
    var p := MakePair(sounds[s], letters[l], s, l);
    assert Sounds(pairs + [p]) == Sounds(pairs) + [sounds[s]];
    assert Letters(pairs + [p]) == Letters(pairs) + [letters[l]];
    RemoveAtMultiset(sounds, s);
    RemoveAtMultiset(letters, l);
  }

  lemma UnmatchConserves(sounds: seq<Tile>, letters: seq<Tile>, pairs: seq<Pair>, word: Word, k: nat)
    requires Conserved(sounds, letters, pairs, word)
    requires k < |pairs|
    ensures Conserved(sounds + [pairs[k].sound], letters + [pairs[k].letter], RemoveAt(pairs, k), word)
  {
    SidesRemoveAt(pairs, k);
    RemoveAtMultiset(Sounds(pairs), k);
    RemoveAtMultiset(Letters(pairs), k);
  }

  lemma SidesRemoveAt(pairs: seq<Pair>, k: nat)
    requires k < |pairs|
    ensures Sounds(RemoveAt(pairs, k)) == RemoveAt(Sounds(pairs), k)
    ensures Letters(RemoveAt(pairs, k)) == RemoveAt(Letters(pairs), k)
  {
    RemoveAtShifts(pairs, k);
    RemoveAtShifts(Sounds(pairs), k);
    RemoveAtShifts(Letters(pairs), k);
  }
}
