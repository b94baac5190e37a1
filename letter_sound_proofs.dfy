/**
 * What the letter-sound game's tiles and pairs promise.
 */
module LetterSoundProofs {
  import opened GameCommon
  import opened LetterSoundGame

  /** A tile of the word is the one dealt for its own index. */
  lemma TileOfWord(ls: seq<LetterSound>, t: Tile)
    requires t in multiset(Tiles(ls))
    ensures t.originalIndex < |ls| && t == Tiles(ls)[t.originalIndex]
  {
    var k :| 0 <= k < |Tiles(ls)| && Tiles(ls)[k] == t;
  }

  lemma {:induction false} DistinctOnce<T>(s: seq<T>, x: T)
    requires forall k, l :: 0 <= k < l < |s| ==> s[k] != s[l]
    ensures multiset(s)[x] <= 1
  {
    if s != [] {
      var init := s[..|s| - 1];
      DistinctOnce(init, x);
      assert s == init + [s[|s| - 1]];
      if x == s[|s| - 1] {
        assert x !in init;
      }
    }
  }

  lemma RepeatedTwice<T>(s: seq<T>, k: nat, l: nat)
    requires k < l < |s| && s[k] == s[l]
    ensures multiset(s)[s[k]] >= 2
  {
    assert s == s[..k] + [s[k]] + s[k + 1..l] + [s[l]] + s[l + 1..];
  }

  /** The `originalIndex` of each tile of a list, in order. */
  function Ids(dealt: seq<Tile>): (r: seq<nat>)
    ensures |r| == |dealt|
  {
    seq(|dealt|, k requires 0 <= k < |dealt| => dealt[k].originalIndex)
  }

  /**
   * Each scrambled list `initializeGame` deals holds one tile per
   * letter-sound, and its `originalIndex` values are exactly 0 .. n-1, each
   * once.
   */
  lemma DealtIndices(dealt: seq<Tile>, ls: seq<LetterSound>)
    requires multiset(dealt) == multiset(Tiles(ls))
    ensures |dealt| == |ls|
    ensures forall k :: 0 <= k < |dealt| ==> dealt[k].originalIndex < |ls|
    ensures forall k, l :: 0 <= k < l < |dealt| ==> dealt[k].originalIndex != dealt[l].originalIndex
    ensures forall j :: 0 <= j < |ls| ==> j in Ids(dealt)
  {
    assert |dealt| == |multiset(dealt)| == |multiset(Tiles(ls))| == |ls|;
    forall k | 0 <= k < |dealt| ensures dealt[k].originalIndex < |ls| && dealt[k] == Tiles(ls)[dealt[k].originalIndex] {
      assert dealt[k] in multiset(dealt);
      TileOfWord(ls, dealt[k]);
    }
    forall k, l | 0 <= k < l < |dealt| ensures dealt[k].originalIndex != dealt[l].originalIndex {
      if dealt[k].originalIndex == dealt[l].originalIndex {
        RepeatedTwice(dealt, k, l);
        DistinctOnce(Tiles(ls), dealt[k]);
        assert false;
      }
    }
    forall j | 0 <= j < |ls| ensures j in Ids(dealt) {
      assert Tiles(ls)[j] in multiset(Tiles(ls));
      assert Tiles(ls)[j] in dealt;
      var k :| 0 <= k < |dealt| && dealt[k] == Tiles(ls)[j];
      assert Ids(dealt)[k] == j;
    }
  }

  /**
   * Matching and unmatching move tiles between the lists and the pairs
   * without creating or losing any: each list's length plus the number of
   * pairs is the word's letter-sound count.
   */
  lemma ConservedCounts(sounds: seq<Tile>, letters: seq<Tile>, pairs: seq<Pair>, word: Word)
    requires Conserved(sounds, letters, pairs, word)
    ensures |sounds| + |pairs| == |word.letterSounds|
    ensures |letters| + |pairs| == |word.letterSounds|
  {
    assert |multiset(sounds) + multiset(Sounds(pairs))| == |multiset(Tiles(word.letterSounds))|;
    assert |multiset(letters) + multiset(Letters(pairs))| == |multiset(Tiles(word.letterSounds))|;
  }

  /**
   * Once every tile is paired, the word is a success exactly when every
   * pair holds the sound tile and the letter tile of the same letter-sound,
   * so the pairs are the word's letter-sounds, each matched with itself.
   */
  lemma CompletionMeansOwnLetters(pairs: seq<Pair>, word: Word)
    requires Conserved([], [], pairs, word) && PairsJudged(pairs)
    ensures AllPairsCorrect(pairs) <==> forall k :: 0 <= k < |pairs| ==> pairs[k].sound == pairs[k].letter
    ensures multiset(Sounds(pairs)) == multiset(Tiles(word.letterSounds))
  {
    assert multiset(Sounds(pairs)) == multiset(Tiles(word.letterSounds));
    assert multiset(Letters(pairs)) == multiset(Tiles(word.letterSounds));
    if AllPairsCorrect(pairs) {
      forall k | 0 <= k < |pairs| ensures pairs[k].sound == pairs[k].letter {
        assert Sounds(pairs)[k] in multiset(Sounds(pairs));
        assert Letters(pairs)[k] in multiset(Letters(pairs));
        TileOfWord(word.letterSounds, pairs[k].sound);
        TileOfWord(word.letterSounds, pairs[k].letter);
      }
    }
  }

  /** A new pair is right exactly when its tiles come from the same letter-sound. */
  lemma PairVerdict(sound: Tile, letter: Tile, s: nat, l: nat, word: Word)
    requires sound in multiset(Tiles(word.letterSounds)) && letter in multiset(Tiles(word.letterSounds))
    ensures MakePair(sound, letter, s, l).isCorrect <==> sound == letter
  {
    TileOfWord(word.letterSounds, sound);
    TileOfWord(word.letterSounds, letter);
  }
}
