/**
 * What the statistics functions of StatsModel promise: how one recorded
 * session changes the document, that the document's invariants are kept,
 * that bucket accuracy is cumulative, and what the overview and the
 * suggestions contain.
 */
module StatsProofs {
  import opened Wrappers
  import opened Dict
  import opened StatsModel

  // ----- the initial document -----

  /** The zero document holds the eight zero buckets and nothing else, and satisfies the invariants. */
  lemma InitialStatsShape(gameType: string, difficulty: string)
    ensures DocValid(InitialStats())
    ensures Keys(InitialStats().gameStats) == ["syllable", "lettersound"]
    ensures gameType in {"syllable", "lettersound"} && difficulty in {"easy", "medium", "hard", "custom"}
            ==> Lookup(InitialStats().gameStats, gameType, difficulty) == Some(ZeroBucket)
    ensures !(gameType in {"syllable", "lettersound"} && difficulty in {"easy", "medium", "hard", "custom"})
            ==> Lookup(InitialStats().gameStats, gameType, difficulty) == None
    ensures InitialStats().recentSessions == [] && InitialStats().wordHistory == []
  {
    var z := ZeroDifficulties();
    assert DistinctKeys(z);
    forall e | e in z ensures BucketValid(e.value) { }
  }

  // ----- recordSession: buckets -----

  /** The touched bucket, created lazily, gains one game and the session's words and correct words. */
  lemma RecordUpdatesBucket(doc: StatsDoc, input: SessionInput, id: string, date: string)
    ensures var diff := ResolveDifficulty(input.difficulty);
            var before := Lookup(doc.gameStats, input.gameType, diff).GetOr(ZeroBucket);
            var after := Lookup(Recorded(doc, input, id, date).gameStats, input.gameType, diff);
            && after.Some?
            && after.value.totalGames == before.totalGames + 1
            && after.value.totalWords == before.totalWords + input.wordsCompleted
            && after.value.correctWords == before.correctWords + input.wordsCorrect
            && after.value.averageAccuracy == RatioOrZero(after.value.correctWords, after.value.totalWords)
            && after == Some(Accumulate(before, 1, input.wordsCompleted, input.wordsCorrect))
  {
    var diff := ResolveDifficulty(input.difficulty);
    var inner := Get(doc.gameStats, input.gameType).GetOr([]);
    var b := Get(inner, diff).GetOr(ZeroBucket);
    var inner' := Put(inner, diff, Accumulate(b, 1, input.wordsCompleted, input.wordsCorrect));
    GetPutSame(doc.gameStats, input.gameType, inner');
    GetPutSame(inner, diff, Accumulate(b, 1, input.wordsCompleted, input.wordsCorrect));
  }

  /** Every other (game type, difficulty) pair reads the same before and after. */
  lemma RecordLeavesOtherBuckets(doc: StatsDoc, input: SessionInput, id: string, date: string,
                                 gameType: string, difficulty: string)
    requires gameType != input.gameType || difficulty != ResolveDifficulty(input.difficulty)
    ensures Lookup(Recorded(doc, input, id, date).gameStats, gameType, difficulty)
         == Lookup(doc.gameStats, gameType, difficulty)
  {
    var diff := ResolveDifficulty(input.difficulty);
    var inner := Get(doc.gameStats, input.gameType).GetOr([]);
    var b := Get(inner, diff).GetOr(ZeroBucket);
    var inner' := Put(inner, diff, Accumulate(b, 1, input.wordsCompleted, input.wordsCorrect));
    if gameType != input.gameType {
      GetPutOther(doc.gameStats, input.gameType, inner', gameType);
    } else {
      GetPutSame(doc.gameStats, input.gameType, inner');
      GetPutOther(inner, diff, Accumulate(b, 1, input.wordsCompleted, input.wordsCorrect), difficulty);
    }
  }

  /** A new game type is appended after the existing ones; existing ones keep their order. */
  lemma RecordKeepsGameTypeOrder(doc: StatsDoc, input: SessionInput, id: string, date: string)
    ensures Keys(Recorded(doc, input, id, date).gameStats)
         == if input.gameType in KeySet(doc.gameStats) then Keys(doc.gameStats)
            else Keys(doc.gameStats) + [input.gameType]
  {
    var diff := ResolveDifficulty(input.difficulty);
    var inner := Get(doc.gameStats, input.gameType).GetOr([]);
    var b := Get(inner, diff).GetOr(ZeroBucket);
    KeysPut(doc.gameStats, input.gameType, Put(inner, diff, Accumulate(b, 1, input.wordsCompleted, input.wordsCorrect)));
  }

  // ----- recordSession: sessions -----

  /** The new session comes first, the previous ones follow in order, and the list holds at most 50. */
  lemma RecordPrependsSession(doc: StatsDoc, input: SessionInput, id: string, date: string)
    ensures var before := doc.recentSessions;
            var after := Recorded(doc, input, id, date).recentSessions;
            && |after| == Min(|before| + 1, SessionCap)
            && after[0] == NewSession(input, id, date)
            && after[1..] == before[..|after| - 1]
  {
  }

  /** The stored session: resolved difficulty, per-session accuracy with the zero guard, time defaulting to 0. */
  lemma NewSessionFields(input: SessionInput, id: string, date: string)
    ensures var s := NewSession(input, id, date);
            && s.difficulty == (if Truthy(input.difficulty) then input.difficulty.value else "custom")
            && (input.wordsCompleted == 0 && input.wordsCorrect == 0 ==> s.accuracy == Finite(0.0))
            && (input.wordsCompleted > 0 ==> s.accuracy == Finite(input.wordsCorrect as real / input.wordsCompleted as real))
            && (input.wordsCorrect <= input.wordsCompleted ==> SessionValid(s))
            && s.timeSpent == (if input.timeSpent.Some? then input.timeSpent.value else 0)
  {
  }

  // ----- recordSession: word history -----

  /** How often a word entry resolves to `k`. */
  function Occurrences(ws: seq<WordInput>, k: string): nat {
    if ws == [] then 0 else (if WordKey(ws[0]) == k then 1 else 0) + Occurrences(ws[1..], k)
  }

  function AttemptsOf(h: Dict<WordStat>, k: string): nat {
    match Get(h, k)
    case None => 0
    case Some(w) => w.attempts
  }

  function CorrectOf(h: Dict<WordStat>, k: string): nat {
    match Get(h, k)
    case None => 0
    case Some(w) => w.correct
  }

  lemma AddAttemptAt(h: Dict<WordStat>, key: string, date: string, k: string)
    ensures key != "" && k == key ==> AttemptsOf(AddAttempt(h, key, date), k) == AttemptsOf(h, k) + 1
    ensures key != "" && k == key ==> CorrectOf(AddAttempt(h, key, date), k) == CorrectOf(h, k)
    ensures key == "" || k != key ==> Get(AddAttempt(h, key, date), k) == Get(h, k)
  {
    if key != "" {
      var w := Get(h, key).GetOr(NewWordStat);
      if k == key {
        GetPutSame(h, key, WordStat(w.attempts + 1, w.correct, Some(date)));
      } else {
        GetPutOther(h, key, WordStat(w.attempts + 1, w.correct, Some(date)), k);
      }
    }
  }

  /** Each non-empty key gains one attempt per occurrence in the session's words. */
  lemma {:induction false} AttemptsCounted(h: Dict<WordStat>, ws: seq<WordInput>, date: string, k: string)
    requires k != ""
    ensures AttemptsOf(AddAttempts(h, ws, date), k) == AttemptsOf(h, k) + Occurrences(ws, k)
    decreases ws
  {
    if ws != [] {
      var h' := AddAttempt(h, WordKey(ws[0]), date);
      AddAttemptAt(h, WordKey(ws[0]), date, k);
      AttemptsCounted(h', ws[1..], date, k);
    }
  }

  /** The empty key, and every word the session does not mention, keep their entry (or absence). */
  lemma {:induction false} UnmentionedUntouched(h: Dict<WordStat>, ws: seq<WordInput>, date: string, k: string)
    requires k == "" || Occurrences(ws, k) == 0
    ensures Get(AddAttempts(h, ws, date), k) == Get(h, k)
    decreases ws
  {
    if ws != [] {
      var h' := AddAttempt(h, WordKey(ws[0]), date);
      AddAttemptAt(h, WordKey(ws[0]), date, k);
      UnmentionedUntouched(h', ws[1..], date, k);
    }
  }

  /** `correct` is never changed, and a new entry starts at 0. */
  lemma {:induction false} CorrectUnchanged(h: Dict<WordStat>, ws: seq<WordInput>, date: string, k: string)
    ensures CorrectOf(AddAttempts(h, ws, date), k) == CorrectOf(h, k)
    decreases ws
  {
    if ws != [] {
      var key := WordKey(ws[0]);
      var h' := AddAttempt(h, key, date);
      AddAttemptAt(h, key, date, k);
      CorrectUnchanged(h', ws[1..], date, k);
    }
  }

  /**
   * As written, a word naming an Object.prototype member is never counted:
   * recording "constructor" three times leaves it out of the history, so
   * it can never become a problem word.
   */
  lemma InheritedKeyNotCounted(date: string)
    ensures var h := AddAttemptAsWritten([], "constructor", date);
            h == [] && AttemptsOf(h, "constructor") == 0
    ensures AttemptsOf(AddAttempts([], [Text("constructor")], date), "constructor") == 1
  {
    AttemptsCounted([], [Text("constructor")], date, "constructor");
  }

  // ----- recordSession: invariants -----

  lemma AccumulateValid(b: Bucket, completed: nat, correct: nat)
    requires BucketValid(b) && correct <= completed
    ensures BucketValid(Accumulate(b, 1, completed, correct))
  {
  }

  lemma RecordedBucketsValid(gs: GameStats, gameType: string, diff: string, completed: nat, correct: nat)
    requires BucketsValid(gs) && correct <= completed
    ensures BucketsValid(RecordedBuckets(gs, gameType, diff, completed, correct))
  {
    var inner := Get(gs, gameType).GetOr([]);
    if Get(gs, gameType).Some? {
      GetIsEntry(gs, gameType);
    }
    assert DifficultiesValid(inner);
    var b := Get(inner, diff).GetOr(ZeroBucket);
    if Get(inner, diff).Some? {
      GetIsEntry(inner, diff);
    }
    assert BucketValid(b);
    var nb := Accumulate(b, 1, completed, correct);
    AccumulateValid(b, completed, correct);
    var inner' := Put(inner, diff, nb);
    PutDistinct(inner, diff, nb);
    PutEntries(inner, diff, nb);
    assert DifficultiesValid(inner');
    PutDistinct(gs, gameType, inner');
    PutEntries(gs, gameType, inner');
  }

  lemma AddAttemptValid(h: Dict<WordStat>, key: string, date: string)
    requires HistoryValid(h)
    ensures HistoryValid(AddAttempt(h, key, date))
  {
    if key != "" {
      var w := Get(h, key).GetOr(NewWordStat);
      if Get(h, key).Some? {
        GetIsEntry(h, key);
      }
      assert w.correct == 0;
      PutDistinct(h, key, WordStat(w.attempts + 1, w.correct, Some(date)));
      PutEntries(h, key, WordStat(w.attempts + 1, w.correct, Some(date)));
    }
  }

  lemma {:induction false} AddAttemptsValid(h: Dict<WordStat>, ws: seq<WordInput>, date: string)
    requires HistoryValid(h)
    ensures HistoryValid(AddAttempts(h, ws, date))
    decreases ws
  {
    if ws != [] {
      AddAttemptValid(h, WordKey(ws[0]), date);
      AddAttemptsValid(AddAttempt(h, WordKey(ws[0]), date), ws[1..], date);
    }
  }

  /** Recording a session with wordsCorrect <= wordsCompleted keeps every invariant of the document. */
  lemma RecordKeepsValid(doc: StatsDoc, input: SessionInput, id: string, date: string)
    requires DocValid(doc) && input.wordsCorrect <= input.wordsCompleted
    ensures DocValid(Recorded(doc, input, id, date))
  {
    RecordedBucketsValid(doc.gameStats, input.gameType, ResolveDifficulty(input.difficulty),
                         input.wordsCompleted, input.wordsCorrect);
    if input.words.Some? {
      AddAttemptsValid(doc.wordHistory, input.words.value, date);
    }
    var all := [NewSession(input, id, date)] + doc.recentSessions;
    assert forall s :: s in all ==> SessionValid(s);
  }

  /** A first session of five words, four right, in a fresh document: the easy syllable bucket reads 1, 5, 4 and 0.8. */
  lemma FirstSessionBucket(id: string, date: string)
    ensures var input := SessionInput("syllable", Some("easy"), 5, 4, None, None);
            Lookup(Recorded(InitialStats(), input, id, date).gameStats, "syllable", "easy")
            == Some(Bucket(1, 5, 4, Finite(0.8)))
  {
    var input := SessionInput("syllable", Some("easy"), 5, 4, None, None);
    InitialStatsShape("syllable", "easy");
    RecordUpdatesBucket(InitialStats(), input, id, date);
  }

  /** In a valid document every bucket has correctWords <= totalWords and a finite accuracy in [0, 1]. */
  lemma ValidBucketBounds(doc: StatsDoc, gameType: string, difficulty: string)
    requires DocValid(doc) && Lookup(doc.gameStats, gameType, difficulty).Some?
    ensures var b := Lookup(doc.gameStats, gameType, difficulty).value;
            && b.correctWords <= b.totalWords
            && b.averageAccuracy.Finite?
            && 0.0 <= b.averageAccuracy.value <= 1.0
  {
    GetIsEntry(doc.gameStats, gameType);
    var inner := Get(doc.gameStats, gameType).value;
    assert DifficultiesValid(inner);
    GetIsEntry(inner, difficulty);
    var b := Get(inner, difficulty).value;
    assert BucketValid(b);
    if b.totalWords > 0 {
      RatioInUnit(b.correctWords, b.totalWords);
    }
  }

  // ----- cumulative accuracy -----

  /** One call of `recordSession`: its input and the id and date it was given. */
  datatype Recording = Recording(input: SessionInput, id: string, date: string)

  function RecordAll(doc: StatsDoc, rs: seq<Recording>): StatsDoc
    decreases rs
  {
    if rs == [] then doc else RecordAll(Recorded(doc, rs[0].input, rs[0].id, rs[0].date), rs[1..])
  }

  predicate InBucket(r: Recording, gameType: string, difficulty: string) {
    r.input.gameType == gameType && ResolveDifficulty(r.input.difficulty) == difficulty
  }

  function GamesIn(rs: seq<Recording>, gameType: string, difficulty: string): nat {
    if rs == [] then 0
    else (if InBucket(rs[0], gameType, difficulty) then 1 else 0) + GamesIn(rs[1..], gameType, difficulty)
  }

  function WordsIn(rs: seq<Recording>, gameType: string, difficulty: string): nat {
    if rs == [] then 0
    else (if InBucket(rs[0], gameType, difficulty) then rs[0].input.wordsCompleted else 0)
         + WordsIn(rs[1..], gameType, difficulty)
  }

  function CorrectIn(rs: seq<Recording>, gameType: string, difficulty: string): nat {
    if rs == [] then 0
    else (if InBucket(rs[0], gameType, difficulty) then rs[0].input.wordsCorrect else 0)
         + CorrectIn(rs[1..], gameType, difficulty)
  }

  /** The buckets after a sequence of recordings: `recordSession`'s bucket update, applied in turn. */
  function RecordAllBuckets(gs: GameStats, rs: seq<Recording>): GameStats
    decreases rs
  {
    if rs == [] then gs
    else RecordAllBuckets(RecordedBuckets(gs, rs[0].input.gameType, ResolveDifficulty(rs[0].input.difficulty),
                                          rs[0].input.wordsCompleted, rs[0].input.wordsCorrect), rs[1..])
  }

  /** The buckets of a document depend only on the buckets before and the recordings. */
  lemma {:induction false} RecordAllBucketsOnly(doc: StatsDoc, rs: seq<Recording>)
    ensures RecordAll(doc, rs).gameStats == RecordAllBuckets(doc.gameStats, rs)
    decreases rs
  {
    if rs != [] {
      RecordAllBucketsOnly(Recorded(doc, rs[0].input, rs[0].id, rs[0].date), rs[1..]);
    }
  }

  /** One recording, seen from one bucket. */
  lemma RecordStep(gs: GameStats, r: Recording, gameType: string, difficulty: string)
    ensures var before := Lookup(gs, gameType, difficulty);
            Lookup(RecordedBuckets(gs, r.input.gameType, ResolveDifficulty(r.input.difficulty),
                                   r.input.wordsCompleted, r.input.wordsCorrect), gameType, difficulty)
            == if InBucket(r, gameType, difficulty)
               then Some(Accumulate(before.GetOr(ZeroBucket), 1, r.input.wordsCompleted, r.input.wordsCorrect))
               else before
  {
    var doc := StatsDoc(gs, [], []);
    if InBucket(r, gameType, difficulty) {
      RecordUpdatesBucket(doc, r.input, r.id, r.date);
    } else {
      RecordLeavesOtherBuckets(doc, r.input, r.id, r.date, gameType, difficulty);
    }
  }

  /**
   * After any sequence of sessions, a bucket holds its starting counters plus
   * the sums over exactly the sessions that went to it, and its accuracy is
   * recomputed from those totals: a lifetime average, not a window.
   */
  lemma {:induction false} CumulativeBucket(gs: GameStats, rs: seq<Recording>, gameType: string, difficulty: string)
    ensures var after := Lookup(RecordAllBuckets(gs, rs), gameType, difficulty);
            var before := Lookup(gs, gameType, difficulty);
            if GamesIn(rs, gameType, difficulty) == 0 then after == before
            else after == Some(Accumulate(before.GetOr(ZeroBucket), GamesIn(rs, gameType, difficulty),
                                          WordsIn(rs, gameType, difficulty), CorrectIn(rs, gameType, difficulty)))
    decreases rs
  {
    if rs != [] {
      var r := rs[0];
      var gs' := RecordedBuckets(gs, r.input.gameType, ResolveDifficulty(r.input.difficulty),
                                 r.input.wordsCompleted, r.input.wordsCorrect);
      var before := Lookup(gs, gameType, difficulty);
      CumulativeBucket(gs', rs[1..], gameType, difficulty);
      RecordStep(gs, r, gameType, difficulty);
      NoGamesNoWords(rs[1..], gameType, difficulty);
      if InBucket(r, gameType, difficulty) {
        AccumulateTwice(before.GetOr(ZeroBucket), 1, r.input.wordsCompleted, r.input.wordsCorrect,
                        GamesIn(rs[1..], gameType, difficulty), WordsIn(rs[1..], gameType, difficulty),
                        CorrectIn(rs[1..], gameType, difficulty));
      }
    }
  }

  lemma {:induction false} NoGamesNoWords(rs: seq<Recording>, gameType: string, difficulty: string)
    ensures GamesIn(rs, gameType, difficulty) == 0
            ==> WordsIn(rs, gameType, difficulty) == 0 && CorrectIn(rs, gameType, difficulty) == 0
  {
    if rs != [] {
      NoGamesNoWords(rs[1..], gameType, difficulty);
    }
  }

  lemma InitialBucketIsZero(gameType: string, difficulty: string)
    ensures Lookup(InitialStats().gameStats, gameType, difficulty).GetOr(ZeroBucket) == ZeroBucket
  {
  }

  lemma AccumulateTwice(b: Bucket, g1: nat, w1: nat, c1: nat, g2: nat, w2: nat, c2: nat)
    ensures Accumulate(Accumulate(b, g1, w1, c1), g2, w2, c2) == Accumulate(b, g1 + g2, w1 + w2, c1 + c2)
  {
  }

  /** From the initial document, a bucket's accuracy is (sum of wordsCorrect) / (sum of wordsCompleted) over its sessions. */
  lemma AccuracyIsLifetimeRatio(rs: seq<Recording>, gameType: string, difficulty: string)
    requires GamesIn(rs, gameType, difficulty) > 0
    ensures Lookup(RecordAll(InitialStats(), rs).gameStats, gameType, difficulty)
         == Some(Bucket(GamesIn(rs, gameType, difficulty), WordsIn(rs, gameType, difficulty),
                        CorrectIn(rs, gameType, difficulty),
                        RatioOrZero(CorrectIn(rs, gameType, difficulty), WordsIn(rs, gameType, difficulty))))
  {
    RecordAllBucketsOnly(InitialStats(), rs);
    CumulativeBucket(InitialStats().gameStats, rs, gameType, difficulty);
    InitialBucketIsZero(gameType, difficulty);
  }

  // ----- getOverallStats -----

  lemma {:induction false} DifficultyTotalPut(d: Difficulties, k: string, b: Bucket, c: Counter)
    ensures DifficultyTotal(Put(d, k, b), c) + Count(Get(d, k).GetOr(ZeroBucket), c)
         == DifficultyTotal(d, c) + Count(b, c)
  {
    if d != [] && d[0].key != k {
      DifficultyTotalPut(d[1..], k, b, c);
    }
  }

  lemma {:induction false} GrandTotalPut(gs: GameStats, k: string, d: Difficulties, c: Counter)
    ensures GrandTotal(Put(gs, k, d), c) + DifficultyTotal(Get(gs, k).GetOr([]), c)
         == GrandTotal(gs, c) + DifficultyTotal(d, c)
  {
    if gs != [] && gs[0].key != k {
      GrandTotalPut(gs[1..], k, d, c);
    }
  }

  /** Recording one session raises the overview totals by 1 game, wordsCompleted words and wordsCorrect correct words. */
  lemma OverallAfterRecord(doc: StatsDoc, input: SessionInput, id: string, date: string)
    ensures var before := Overall(doc);
            var after := Overall(Recorded(doc, input, id, date));
            && after.totalGames == before.totalGames + 1
            && after.totalWords == before.totalWords + input.wordsCompleted
            && after.totalCorrect == before.totalCorrect + input.wordsCorrect
  {
    var diff := ResolveDifficulty(input.difficulty);
    var inner := Get(doc.gameStats, input.gameType).GetOr([]);
    var b := Get(inner, diff).GetOr(ZeroBucket);
    var nb := Accumulate(b, 1, input.wordsCompleted, input.wordsCorrect);
    var inner' := Put(inner, diff, nb);
    forall c: Counter
      ensures GrandTotal(Put(doc.gameStats, input.gameType, inner'), c)
           == GrandTotal(doc.gameStats, c) + Count(nb, c) - Count(b, c)
    {
      DifficultyTotalPut(inner, diff, nb, c);
      GrandTotalPut(doc.gameStats, input.gameType, inner', c);
    }
  }

  lemma {:induction false} DifficultyCorrectBound(d: Difficulties)
    requires forall e :: e in d ==> BucketValid(e.value)
    ensures DifficultyTotal(d, Correct) <= DifficultyTotal(d, Words)
  {
    if d != [] {
      assert d[0] in d;
      DifficultyCorrectBound(d[1..]);
    }
  }

  lemma {:induction false} GrandCorrectBound(gs: GameStats)
    requires forall e :: e in gs ==> DifficultiesValid(e.value)
    ensures GrandTotal(gs, Correct) <= GrandTotal(gs, Words)
  {
    if gs != [] {
      assert gs[0] in gs;
      DifficultyCorrectBound(gs[0].value);
      GrandCorrectBound(gs[1..]);
    }
  }

  /** In a valid document the overview has totalCorrect <= totalWords and accuracy in [0, 1], 0 when no words. */
  lemma OverallBounds(doc: StatsDoc)
    requires DocValid(doc)
    ensures var o := Overall(doc);
            && o.totalCorrect <= o.totalWords
            && 0.0 <= o.overallAccuracy <= 1.0
            && (o.totalWords == 0 ==> o.overallAccuracy == 0.0)
            && |o.recentSessions| == Min(OverviewSessionCount, |doc.recentSessions|)
            && o.recentSessions == doc.recentSessions[..|o.recentSessions|]
  {
    GrandCorrectBound(doc.gameStats);
    var words := GrandTotal(doc.gameStats, Words);
    var correct := GrandTotal(doc.gameStats, Correct);
    if words > 0 {
      RatioInUnit(correct, words);
    }
  }

  lemma RatioInUnit(n: nat, d: nat)
    requires n <= d && d > 0
    ensures 0.0 <= n as real / d as real <= 1.0
  {
    assert RatioOrZero(n, d) == Finite(n as real / d as real);
  }

  // ----- getImprovementSuggestions -----

  lemma {:induction false} LowAccuracyInMembers(gameType: string, d: Difficulties, s: Suggestion)
    requires DistinctKeys(d)
    ensures s in LowAccuracyIn(gameType, d)
        <==> s.LowAccuracy? && s.gameType == gameType && Get(d, s.difficulty).Some?
             && NeedsPractice(Get(d, s.difficulty).value) && s.accuracy == Get(d, s.difficulty).value.averageAccuracy
  {
    if d != [] {
      LowAccuracyInMembers(gameType, d[1..], s);
    }
  }

  lemma {:induction false} LowAccuracyInKeys(gameType: string, d: Difficulties, s: Suggestion)
    requires s in LowAccuracyIn(gameType, d)
    ensures s.LowAccuracy? && s.gameType == gameType && s.difficulty in KeySet(d)
  {
    if d != [] && !(NeedsPractice(d[0].value) && s == LowAccuracy(gameType, d[0].key, d[0].value.averageAccuracy)) {
      LowAccuracyInKeys(gameType, d[1..], s);
    }
  }

  lemma {:induction false} LowAccuracyKeys(gs: GameStats, s: Suggestion)
    requires s in LowAccuracySuggestions(gs)
    ensures s.LowAccuracy? && s.gameType in KeySet(gs)
  {
    if gs != [] {
      if s in LowAccuracyIn(gs[0].key, gs[0].value) {
        LowAccuracyInKeys(gs[0].key, gs[0].value, s);
      } else {
        LowAccuracyKeys(gs[1..], s);
      }
    }
  }

  /**
   * There is a low-accuracy suggestion for a bucket exactly when the bucket
   * exists with more than 5 words and accuracy below 0.7, and it carries that accuracy.
   */
  lemma {:induction false} LowAccuracyExactly(gs: GameStats, gameType: string, difficulty: string, accuracy: Number)
    requires BucketsValid(gs)
    ensures LowAccuracy(gameType, difficulty, accuracy) in LowAccuracySuggestions(gs)
        <==> Lookup(gs, gameType, difficulty).Some?
             && NeedsPractice(Lookup(gs, gameType, difficulty).value)
             && accuracy == Lookup(gs, gameType, difficulty).value.averageAccuracy
  {
    var s := LowAccuracy(gameType, difficulty, accuracy);
    if gs != [] {
      assert gs[0] in gs;
      assert BucketsValid(gs[1..]) by {
        forall e | e in gs[1..] ensures DifficultiesValid(e.value) { assert e in gs; }
      }
      LowAccuracyExactly(gs[1..], gameType, difficulty, accuracy);
      LowAccuracyInMembers(gs[0].key, gs[0].value, s);
    }
  }

  lemma {:induction false} LowAccuracyOnly(gs: GameStats)
    ensures forall s :: s in LowAccuracySuggestions(gs) ==> s.LowAccuracy?
  {
    forall s | s in LowAccuracySuggestions(gs) ensures s.LowAccuracy? {
      LowAccuracyKeys(gs, s);
    }
  }

  /** Low-accuracy suggestions come first, followed by at most one problem-words suggestion. */
  lemma SuggestionsOrder(doc: StatsDoc)
    ensures var s := Suggestions(doc);
            forall i :: 0 <= i < |s| && !s[i].LowAccuracy? ==> i == |s| - 1 && s[i].ProblemWords?
  {
    LowAccuracyOnly(doc.gameStats);
    var s := Suggestions(doc);
    var low := LowAccuracySuggestions(doc.gameStats);
    assert forall i :: 0 <= i < |low| ==> s[i] == low[i] && low[i] in low;
  }

  lemma {:induction false} ProblemEntriesAreProblems(h: Dict<WordStat>)
    ensures forall e :: e in ProblemEntries(h) ==> e in h && IsProblem(e.value)
  {
    if h != [] {
      ProblemEntriesAreProblems(h[1..]);
    }
  }

  lemma {:induction false} InsertByRatioMultiset(e: Entry<WordStat>, sorted: Dict<WordStat>)
    ensures multiset(InsertByRatio(e, sorted)) == multiset(sorted) + multiset{e}
  {
    if sorted != [] && SuccessRatio(e.value) > SuccessRatio(sorted[0].value) {
      InsertByRatioMultiset(e, sorted[1..]);
      assert sorted == [sorted[0]] + sorted[1..];
    }
  }

  /** The sort is a permutation. */
  lemma {:induction false} SortByRatioMultiset(es: Dict<WordStat>)
    ensures multiset(SortByRatio(es)) == multiset(es)
  {
    if es != [] {
      SortByRatioMultiset(es[1..]);
      InsertByRatioMultiset(es[0], SortByRatio(es[1..]));
      assert es == [es[0]] + es[1..];
    }
  }

  predicate SortedByRatio(s: Dict<WordStat>) {
    forall i :: 0 <= i < |s| - 1 ==> SuccessRatio(s[i].value) <= SuccessRatio(s[i + 1].value)
  }

  lemma {:induction false} InsertByRatioSorted(e: Entry<WordStat>, sorted: Dict<WordStat>)
    requires SortedByRatio(sorted)
    ensures SortedByRatio(InsertByRatio(e, sorted))
    ensures |InsertByRatio(e, sorted)| == |sorted| + 1
    ensures InsertByRatio(e, sorted)[0] == if sorted == [] || SuccessRatio(e.value) <= SuccessRatio(sorted[0].value) then e else sorted[0]
  {
    if sorted != [] && SuccessRatio(e.value) > SuccessRatio(sorted[0].value) {
      InsertByRatioSorted(e, sorted[1..]);
    }
  }

  /** The sort orders by ascending success ratio. */
  lemma {:induction false} SortByRatioSorted(es: Dict<WordStat>)
    ensures SortedByRatio(SortByRatio(es)) && |SortByRatio(es)| == |es|
  {
    if es != [] {
      SortByRatioSorted(es[1..]);
      InsertByRatioSorted(es[0], SortByRatio(es[1..]));
    }
  }

  /** The entries whose success ratio is `r`, in order. */
  function WithRatio(s: Dict<WordStat>, r: real): Dict<WordStat> {
    if s == [] then [] else (if SuccessRatio(s[0].value) == r then [s[0]] else []) + WithRatio(s[1..], r)
  }

  lemma WithRatioCons(x: Entry<WordStat>, s: Dict<WordStat>, r: real)
    ensures WithRatio([x] + s, r) == (if SuccessRatio(x.value) == r then [x] else []) + WithRatio(s, r)
  {
    assert ([x] + s)[0] == x;
    assert ([x] + s)[1..] == s;
  }

  /** An inserted entry passes only entries of strictly lower ratio, so it lands before every entry of its own ratio. */
  lemma {:induction false} InsertByRatioWithRatio(e: Entry<WordStat>, sorted: Dict<WordStat>, r: real)
    ensures WithRatio(InsertByRatio(e, sorted), r)
         == (if SuccessRatio(e.value) == r then [e] else []) + WithRatio(sorted, r)
  {
    if sorted == [] || SuccessRatio(e.value) <= SuccessRatio(sorted[0].value) {
      WithRatioCons(e, sorted, r);
    } else {
      var head, rest := sorted[0], sorted[1..];
      assert sorted == [head] + rest;
      InsertByRatioWithRatio(e, rest, r);
      WithRatioCons(head, InsertByRatio(e, rest), r);
      WithRatioCons(head, rest, r);
      if SuccessRatio(e.value) == r {
        assert SuccessRatio(head.value) != r;
      }
    }
  }

  /**
   * The sort is stable: for every ratio, the entries with that ratio appear
   * in the sorted list in the same order as in the input.
   */
  lemma {:induction false} SortByRatioStable(es: Dict<WordStat>, r: real)
    ensures WithRatio(SortByRatio(es), r) == WithRatio(es, r)
  {
    if es != [] {
      SortByRatioStable(es[1..], r);
      InsertByRatioWithRatio(es[0], SortByRatio(es[1..]), r);
    }
  }

  /** When every ratio is the same, the sort changes nothing. */
  lemma {:induction false} SortByRatioUniform(es: Dict<WordStat>, r: real)
    requires forall e :: e in es ==> SuccessRatio(e.value) == r
    ensures SortByRatio(es) == es
  {
    if es != [] {
      SortByRatioUniform(es[1..], r);
      if es[1..] != [] {
        assert es[1] in es;
      }
    }
  }

  lemma {:induction false} SortedTransitive(s: Dict<WordStat>, i: nat, j: nat)
    requires SortedByRatio(s) && i <= j < |s|
    ensures SuccessRatio(s[i].value) <= SuccessRatio(s[j].value)
    decreases j - i
  {
    if i < j {
      SortedTransitive(s, i + 1, j);
    }
  }

  lemma {:induction false} KeysLength(d: Dict<WordStat>)
    ensures |Keys(d)| == |d|
    ensures forall i :: 0 <= i < |d| ==> Keys(d)[i] == d[i].key
  {
    if d != [] {
      KeysLength(d[1..]);
    }
  }

  /**
   * The problem-words list has at most 5 words, as many as there are problem
   * entries up to 5, and every listed word has at least 3 attempts and a
   * success ratio below 0.5.
   */
  lemma ProblemWordsBounded(h: Dict<WordStat>)
    requires DistinctKeys(h)
    ensures var words := ProblemWordList(h);
            && |words| == Min(ProblemWordLimit, |ProblemEntries(h)|)
            && forall w :: w in words ==> Get(h, w).Some? && Get(h, w).value.attempts >= 3
                                          && SuccessRatio(Get(h, w).value) < 0.5
  {
    var sorted := SortByRatio(ProblemEntries(h));
    SortByRatioMultiset(ProblemEntries(h));
    ProblemEntriesAreProblems(h);
    var top := sorted[..Min(ProblemWordLimit, |sorted|)];
    KeysLength(top);
    forall w | w in ProblemWordList(h)
      ensures Get(h, w).Some? && Get(h, w).value.attempts >= 3 && SuccessRatio(Get(h, w).value) < 0.5
    {
      var i :| 0 <= i < |top| && Keys(top)[i] == w;
      var e := top[i];
      assert e in multiset(sorted);
      assert e in ProblemEntries(h);
      EntryIsGet(h, e);
    }
  }

  /** In a list sorted by ratio, an entry whose key is not among the first `n` keys has a ratio no lower than theirs. */
  lemma SortedPrefixLowest(sorted: Dict<WordStat>, n: nat, e: Entry<WordStat>, i: nat)
    requires SortedByRatio(sorted) && n <= |sorted| && i < n
    requires e in sorted && e.key !in Keys(sorted[..n])
    ensures SuccessRatio(sorted[i].value) <= SuccessRatio(e.value)
  {
    KeysLength(sorted[..n]);
    var j :| 0 <= j < |sorted| && sorted[j] == e;
    assert !(j < n);
    SortedTransitive(sorted, i, j);
  }

  lemma ProblemWordLowestAt(h: Dict<WordStat>, e: Entry<WordStat>, w: string)
    requires DistinctKeys(h)
    requires e in ProblemEntries(h) && e.key !in ProblemWordList(h) && w in ProblemWordList(h)
    ensures Get(h, w).Some? && SuccessRatio(Get(h, w).value) <= SuccessRatio(e.value)
  {
    var sorted := SortByRatio(ProblemEntries(h));
    SortByRatioSorted(ProblemEntries(h));
    SortByRatioMultiset(ProblemEntries(h));
    ProblemEntriesAreProblems(h);
    var n := Min(ProblemWordLimit, |sorted|);
    assert ProblemWordList(h) == Keys(sorted[..n]);
    KeysLength(sorted[..n]);
    var i :| 0 <= i < n && Keys(sorted[..n])[i] == w;
    assert sorted[i] in multiset(sorted);
    assert sorted[i] in ProblemEntries(h);
    EntryIsGet(h, sorted[i]);
    assert e in multiset(ProblemEntries(h));
    SortedPrefixLowest(sorted, n, e, i);
  }

  /**
   * The list takes the lowest ratios: no problem word left off the list has
   * a lower success ratio than a word on it.
   */
  lemma ProblemWordsLowest(h: Dict<WordStat>)
    requires DistinctKeys(h)
    ensures var words := ProblemWordList(h);
            forall e, w :: e in ProblemEntries(h) && e.key !in words && w in words ==>
              Get(h, w).Some? && SuccessRatio(Get(h, w).value) <= SuccessRatio(e.value)
  {
    forall e, w | e in ProblemEntries(h) && e.key !in ProblemWordList(h) && w in ProblemWordList(h)
      ensures Get(h, w).Some? && SuccessRatio(Get(h, w).value) <= SuccessRatio(e.value)
    {
      ProblemWordLowestAt(h, e, w);
    }
  }

  /** The entries with at least 3 attempts, in insertion order. */
  function AttemptedThrice(h: Dict<WordStat>): Dict<WordStat> {
    if h == [] then []
    else (if h[0].value.attempts >= ProblemMinAttempts then [h[0]] else []) + AttemptedThrice(h[1..])
  }

  lemma {:induction false} ProblemEntriesWhenNoneCorrect(h: Dict<WordStat>)
    requires forall e :: e in h ==> e.value.correct == 0
    ensures ProblemEntries(h) == AttemptedThrice(h)
    ensures forall e :: e in ProblemEntries(h) ==> SuccessRatio(e.value) == 0.0
  {
    if h != [] {
      assert h[0] in h;
      ProblemEntriesWhenNoneCorrect(h[1..]);
    }
  }

  /**
   * Since `correct` is never raised, the problem words of any document this
   * module writes are simply the first five words with at least 3 attempts,
   * in insertion order: the ratio filter and the sort have no effect.
   */
  lemma ProblemWordsInInsertionOrder(doc: StatsDoc)
    requires DocValid(doc)
    ensures var a := AttemptedThrice(doc.wordHistory);
            ProblemWordList(doc.wordHistory) == Keys(a[..Min(ProblemWordLimit, |a|)])
  {
    ProblemEntriesWhenNoneCorrect(doc.wordHistory);
    SortByRatioUniform(ProblemEntries(doc.wordHistory), 0.0);
  }
}
