/**
 * The operations of my-react-app/src/utils/stats.js over the browser's
 * storage slot: load, save and clear, the read-modify-write `recordSession`,
 * and the two read-only projections. Each is proved to compute what the
 * corresponding function of StatsModel specifies.
 */
module StatsStorage {
  import opened Wrappers
  import opened Dict
  import opened StatsModel

  /**
   * The storage item under the key "dyslexiaGameStats". `None` stands for no
   * item and also for an item that does not parse, which `loadStats` treats
   * alike. A write that the browser rejects (quota) leaves the item as it was.
   */
  class Store {
    var slot: Option<StatsDoc>

    constructor (stored: Option<StatsDoc>)
      ensures slot == stored
    {
      slot := stored;
    }

    /** `loadStats`: the stored document, or the initial document when none is readable. */
    method LoadStats() returns (doc: StatsDoc)
      ensures slot.Some? ==> doc == slot.value
      ensures slot.None? ==> doc == InitialStats()
    {
      if slot.Some? {
        doc := slot.value;
      } else {
        doc := InitialStats();
      }
    }

    /** `saveStats`: replaces the item, unless the write fails, which is swallowed. */
    method SaveStats(doc: StatsDoc, writeFails: bool)
      modifies this
      ensures slot == if writeFails then old(slot) else Some(doc)
    {
      if !writeFails {
        slot := Some(doc);
      }
    }

    /** `clearStats`: removes the item, so the next load gives the initial document. */
    method ClearStats()
      modifies this
      ensures slot == None
    {
      slot := None;
    }

    /**
     * `recordSession`: loads, updates the session's bucket (creating it when
     * absent), prepends the session keeping the newest 50, counts each word,
     * saves and returns the document. The id and date are the caller's.
     */
    method RecordSession(input: SessionInput, id: string, date: string, writeFails: bool) returns (doc: StatsDoc)
      modifies this
      ensures doc == Recorded(Loaded(old(slot)), input, id, date)
      ensures slot == if writeFails then old(slot) else Some(doc)
    {
      var loaded := LoadStats();
      var diff := ResolveDifficulty(input.difficulty);
      var gameStats := UpdateBucket(loaded.gameStats, input.gameType, diff, input.wordsCompleted, input.wordsCorrect);

      // Prepend the session and keep the newest 50.
      var sessions := [NewSession(input, id, date)] + loaded.recentSessions;
      if |sessions| > SessionCap {
        sessions := sessions[..SessionCap];
      }

      var history := loaded.wordHistory;
      if input.words.Some? {
        history := CountWords(history, input.words.value, date);
      }

      doc := StatsDoc(gameStats, sessions, history);
      SaveStats(doc, writeFails);
    }

    /**
     * `getOverallStats`: sums the three counters over every bucket of every
     * game type, the guarded overall accuracy, and the newest 10 sessions.
     * It writes nothing.
     */
    method GetOverallStats() returns (o: OverallStats)
      ensures o == Overall(Loaded(slot))
    {
      var doc := LoadStats();
      var gs := doc.gameStats;
      var totalGames, totalWords, totalCorrect := 0, 0, 0;
      var i := 0;
      while i < |gs|
        invariant 0 <= i <= |gs|
        invariant totalGames + GrandTotal(gs[i..], Games) == GrandTotal(gs, Games)
        invariant totalWords + GrandTotal(gs[i..], Words) == GrandTotal(gs, Words)
        invariant totalCorrect + GrandTotal(gs[i..], Correct) == GrandTotal(gs, Correct)
      {
        var difficulties := gs[i].value;
        assert gs[i..][1..] == gs[i + 1..];
        var j := 0;
        while j < |difficulties|
          invariant 0 <= j <= |difficulties|
          invariant totalGames + DifficultyTotal(difficulties[j..], Games) + GrandTotal(gs[i + 1..], Games) == GrandTotal(gs, Games)
          invariant totalWords + DifficultyTotal(difficulties[j..], Words) + GrandTotal(gs[i + 1..], Words) == GrandTotal(gs, Words)
          invariant totalCorrect + DifficultyTotal(difficulties[j..], Correct) + GrandTotal(gs[i + 1..], Correct) == GrandTotal(gs, Correct)
        {
          var stat := difficulties[j].value;
          assert difficulties[j..][1..] == difficulties[j + 1..];
          totalGames := totalGames + stat.totalGames;
          totalWords := totalWords + stat.totalWords;
          totalCorrect := totalCorrect + stat.correctWords;
          j := j + 1;
        }
        i := i + 1;
      }
      var accuracy := if totalWords > 0 then totalCorrect as real / totalWords as real else 0.0;
      o := OverallStats(totalGames, totalWords, totalCorrect, accuracy,
                        doc.recentSessions[..Min(OverviewSessionCount, |doc.recentSessions|)], doc.wordHistory);
    }

    /**
     * `getImprovementSuggestions`: one low-accuracy suggestion per qualifying
     * bucket in document order, then the problem-words suggestion if any.
     */
    method GetImprovementSuggestions() returns (suggestions: seq<Suggestion>)
      ensures suggestions == Suggestions(Loaded(slot))
    {
      var doc := LoadStats();
      suggestions := CollectAllLowAccuracy(doc.gameStats);
      var problemWords := ProblemWordList(doc.wordHistory);
      if |problemWords| > 0 {
        suggestions := suggestions + [ProblemWords(problemWords)];
      }
    }
  }

  /**
   * The lazy creation of the session's game type and bucket in `recordSession`,
   * followed by the in-place update of the bucket's counters and accuracy.
   */
  method UpdateBucket(gs: GameStats, gameType: string, diff: string, completed: nat, correct: nat)
    returns (updated: GameStats)
    ensures updated == RecordedBuckets(gs, gameType, diff, completed, correct)
  {
    var gameStats := gs;
    if Get(gameStats, gameType).None? {
      gameStats := Put(gameStats, gameType, []);
    }
    GetPutSame(gs, gameType, []);
    var inner := Get(gameStats, gameType).value;
    assert inner == Get(gs, gameType).GetOr([]);
    var created := inner;
    if Get(inner, diff).None? {
      inner := Put(inner, diff, ZeroBucket);
    }
    GetPutSame(created, diff, ZeroBucket);
    var stat := Get(inner, diff).value;
    assert stat == Get(created, diff).GetOr(ZeroBucket);

    stat := stat.(totalGames := stat.totalGames + 1);
    stat := stat.(totalWords := stat.totalWords + completed);
    stat := stat.(correctWords := stat.correctWords + correct);
    stat := stat.(averageAccuracy := RatioOrZero(stat.correctWords, stat.totalWords));
    PutPut(created, diff, ZeroBucket, stat);
    inner := Put(inner, diff, stat);
    PutPut(gs, gameType, [], inner);
    updated := Put(gameStats, gameType, inner);
  }

  /**
   * The `forEach` over a session's words: each non-empty key gets an entry
   * when it has none, then one more attempt and the session's date.
   */
  method CountWords(h: Dict<WordStat>, ws: seq<WordInput>, date: string) returns (history: Dict<WordStat>)
    ensures history == AddAttempts(h, ws, date)
  {
    history := h;
    var i := 0;
    while i < |ws|
      invariant 0 <= i <= |ws|
      invariant AddAttempts(history, ws[i..], date) == AddAttempts(h, ws, date)
    {
      var key := WordKey(ws[i]);
      ghost var before := history;
      if key != "" {
        if Get(history, key).None? {
          history := Put(history, key, NewWordStat);
        }
        GetPutSame(before, key, NewWordStat);
        var entry := Get(history, key).value;
        assert entry == Get(before, key).GetOr(NewWordStat);
        var next := entry.(attempts := entry.attempts + 1, lastAttempt := Some(date));
        PutPut(before, key, NewWordStat, next);
        history := Put(history, key, next);
      }
      assert history == AddAttempt(before, key, date);
      assert ws[i..][1..] == ws[i + 1..];
      i := i + 1;
    }
  }

  /** The outer `forEach` of `getImprovementSuggestions`, over the game types. */
  method CollectAllLowAccuracy(gs: GameStats) returns (suggestions: seq<Suggestion>)
    ensures suggestions == LowAccuracySuggestions(gs)
  {
    suggestions := [];
    var i := 0;
    while i < |gs|
      invariant 0 <= i <= |gs|
      invariant suggestions + LowAccuracySuggestions(gs[i..]) == LowAccuracySuggestions(gs)
    {
      assert gs[i..][1..] == gs[i + 1..];
      assert LowAccuracySuggestions(gs[i..]) == LowAccuracyIn(gs[i].key, gs[i].value) + LowAccuracySuggestions(gs[i + 1..]);
      var low := CollectLowAccuracy(gs[i].key, gs[i].value);
      suggestions := suggestions + low;
      i := i + 1;
    }
  }

  /** The inner `forEach` of `getImprovementSuggestions`, over one game type's buckets. */
  method CollectLowAccuracy(gameType: string, difficulties: Difficulties) returns (low: seq<Suggestion>)
    ensures low == LowAccuracyIn(gameType, difficulties)
  {
    low := [];
    var j := 0;
    while j < |difficulties|
      invariant 0 <= j <= |difficulties|
      invariant low + LowAccuracyIn(gameType, difficulties[j..]) == LowAccuracyIn(gameType, difficulties)
    {
      var stat := difficulties[j].value;
      assert difficulties[j..][1..] == difficulties[j + 1..];
      assert LowAccuracyIn(gameType, difficulties[j..]) ==
        (if NeedsPractice(stat) then [LowAccuracy(gameType, difficulties[j].key, stat.averageAccuracy)] else [])
        + LowAccuracyIn(gameType, difficulties[j + 1..]);
      if stat.totalWords > AdviceMinWords && stat.averageAccuracy.Finite? && stat.averageAccuracy.value < AdviceAccuracyBelow {
        low := low + [LowAccuracy(gameType, difficulties[j].key, stat.averageAccuracy)];
      }
      j := j + 1;
    }
  }
}
