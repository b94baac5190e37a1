/**
 * The statistics document kept by my-react-app/src/utils/stats.js, and the
 * pure functions that say what each of its operations computes. The
 * imperative operations themselves live in StatsStorage and are proved
 * equal to these functions; StatsProofs states what these functions promise.
 */
module StatsModel {
  import opened Wrappers
  import opened Dict

  /** Length bound of `recentSessions`. */
  const SessionCap: nat := 50
  /** Sessions shown by the overview. */
  const OverviewSessionCount: nat := 10
  /** Difficulty used when a session names none. */
  const CustomDifficulty: string := "custom"
  /** A bucket is advised on only above this many words ... */
  const AdviceMinWords: nat := 5
  /** ... and below this accuracy. */
  const AdviceAccuracyBelow: real := 0.7
  /** A word is a problem word from this many attempts ... */
  const ProblemMinAttempts: nat := 3
  /** ... with a success ratio below this. */
  const ProblemRatioBelow: real := 0.5
  /** At most this many problem words are listed. */
  const ProblemWordLimit: nat := 5

  function Min(a: nat, b: nat): nat { if a <= b then a else b }

  /**
   * A JavaScript number as produced by `n / d || 0` for non-negative n, d:
   * 0/0 is NaN, which `|| 0` turns into 0, while n/0 for n > 0 is Infinity.
   */
  datatype Number = Finite(value: real) | PosInfinity

  function RatioOrZero(n: nat, d: nat): Number {
    if d > 0 then Finite(n as real / d as real)
    else if n == 0 then Finite(0.0)
    else PosInfinity
  }

  // ----- the document -----

  /** One (game type, difficulty) accumulator. */
  datatype Bucket = Bucket(totalGames: nat, totalWords: nat, correctWords: nat, averageAccuracy: Number)

  const ZeroBucket: Bucket := Bucket(0, 0, 0, Finite(0.0))

  type Difficulties = Dict<Bucket>
  type GameStats = Dict<Difficulties>

  datatype Session = Session(
    id: string,
    gameType: string,
    difficulty: string,
    date: string,
    wordsCompleted: nat,
    wordsCorrect: nat,
    accuracy: Number,
    timeSpent: nat)

  datatype WordStat = WordStat(attempts: nat, correct: nat, lastAttempt: Option<string>)

  const NewWordStat: WordStat := WordStat(0, 0, None)

  datatype StatsDoc = StatsDoc(gameStats: GameStats, recentSessions: seq<Session>, wordHistory: Dict<WordStat>)

  function ZeroDifficulties(): Difficulties {
    [Entry("easy", ZeroBucket), Entry("medium", ZeroBucket), Entry("hard", ZeroBucket), Entry("custom", ZeroBucket)]
  }

  /** `getInitialStats`: both game types with four zero buckets, no sessions, no words. */
  function InitialStats(): StatsDoc {
    StatsDoc([Entry("syllable", ZeroDifficulties()), Entry("lettersound", ZeroDifficulties())], [], [])
  }

  /** `loadStats`: the stored document, or the initial one when nothing (readable) is stored. */
  function Loaded(slot: Option<StatsDoc>): StatsDoc {
    slot.GetOr(InitialStats())
  }

  /** `gameStats[gameType][difficulty]`, if both levels exist. */
  function Lookup(gs: GameStats, gameType: string, difficulty: string): Option<Bucket> {
    match Get(gs, gameType)
    case None => None
    case Some(inner) => Get(inner, difficulty)
  }

  // ----- invariants of documents this module writes -----

  predicate BucketValid(b: Bucket) {
    b.correctWords <= b.totalWords && b.averageAccuracy == RatioOrZero(b.correctWords, b.totalWords)
  }

  predicate DifficultiesValid(d: Difficulties) {
    DistinctKeys(d) && forall e :: e in d ==> BucketValid(e.value)
  }

  predicate BucketsValid(gs: GameStats) {
    DistinctKeys(gs) && forall e :: e in gs ==> DifficultiesValid(e.value)
  }

  predicate SessionValid(s: Session) {
    s.wordsCorrect <= s.wordsCompleted && s.accuracy == RatioOrZero(s.wordsCorrect, s.wordsCompleted)
  }

  /** Every word entry this module creates has a non-empty key and `correct` 0, and nothing ever raises it. */
  predicate HistoryValid(h: Dict<WordStat>) {
    DistinctKeys(h) && forall e :: e in h ==> e.key != "" && e.value.correct == 0
  }

  /** What every document written by `recordSession` satisfies, given sessions with wordsCorrect <= wordsCompleted. */
  predicate DocValid(doc: StatsDoc) {
    BucketsValid(doc.gameStats)
    && |doc.recentSessions| <= SessionCap
    && (forall s :: s in doc.recentSessions ==> SessionValid(s))
    && HistoryValid(doc.wordHistory)
  }

  // ----- recordSession -----

  /** An entry of the `words` list: a plain string, or an object with `word` or `text`. */
  datatype WordInput = Text(s: string) | WordObject(word: Option<string>, text: Option<string>)

  datatype SessionInput = SessionInput(
    gameType: string,
    difficulty: Option<string>,
    wordsCompleted: nat,
    wordsCorrect: nat,
    timeSpent: Option<nat>,
    words: Option<seq<WordInput>>)

  predicate Truthy(s: Option<string>) { s.Some? && s.value != "" }

  /** `difficulty || "custom"`. */
  function ResolveDifficulty(d: Option<string>): string {
    if Truthy(d) then d.value else CustomDifficulty
  }

  /** The history key of a word entry; "" means the entry is skipped. */
  function WordKey(w: WordInput): string {
    match w
    case Text(s) => s
    case WordObject(word, text) =>
      if Truthy(word) then word.value else if Truthy(text) then text.value else ""
  }

  /** The bucket after adding `games` games, `words` words and `correct` correct words. */
  function Accumulate(b: Bucket, games: nat, words: nat, correct: nat): Bucket {
    Bucket(b.totalGames + games, b.totalWords + words, b.correctWords + correct,
           RatioOrZero(b.correctWords + correct, b.totalWords + words))
  }

  /** Creates the game-type map and the bucket when absent, then accumulates one session. */
  function RecordedBuckets(gs: GameStats, gameType: string, diff: string, completed: nat, correct: nat): GameStats {
    var inner := Get(gs, gameType).GetOr([]);
    var b := Get(inner, diff).GetOr(ZeroBucket);
    Put(gs, gameType, Put(inner, diff, Accumulate(b, 1, completed, correct)))
  }

  function NewSession(input: SessionInput, id: string, date: string): Session {
    Session(id, input.gameType, ResolveDifficulty(input.difficulty), date,
            input.wordsCompleted, input.wordsCorrect,
            RatioOrZero(input.wordsCorrect, input.wordsCompleted), input.timeSpent.GetOr(0))
  }

  /** `unshift` followed by truncation to the newest 50. */
  function PushSession(sessions: seq<Session>, s: Session): seq<Session> {
    var all := [s] + sessions;
    if |all| > SessionCap then all[..SessionCap] else all
  }

  /** One word occurrence: creates the entry when absent and counts one attempt. */
  function AddAttempt(h: Dict<WordStat>, key: string, date: string): Dict<WordStat> {
    if key == "" then h
    else
      var w := Get(h, key).GetOr(NewWordStat);
      Put(h, key, WordStat(w.attempts + 1, w.correct, Some(date)))
  }

  /**
   * The names every plain JavaScript object inherits from Object.prototype.
   * Reading `wordHistory[name]` for one of them finds the inherited member,
   * which is truthy, so the code as written creates no entry for it.
   */
  const InheritedNames: set<string> := {
    "constructor", "hasOwnProperty", "isPrototypeOf", "propertyIsEnumerable",
    "toLocaleString", "toString", "valueOf", "__proto__",
    "__defineGetter__", "__defineSetter__", "__lookupGetter__", "__lookupSetter__"}

  /**
   * One word occurrence as the source is written: for an inherited name that
   * is not an own key, the increment lands on the inherited member and the
   * history itself is left as it was.
   */
  function AddAttemptAsWritten(h: Dict<WordStat>, key: string, date: string): Dict<WordStat> {
    if key in InheritedNames && key !in KeySet(h) then h else AddAttempt(h, key, date)
  }

  /** The `forEach` over the session's words, in order. */
  function AddAttempts(h: Dict<WordStat>, ws: seq<WordInput>, date: string): Dict<WordStat>
    decreases ws
  {
    if ws == [] then h else AddAttempts(AddAttempt(h, WordKey(ws[0]), date), ws[1..], date)
  }

  function RecordedHistory(h: Dict<WordStat>, words: Option<seq<WordInput>>, date: string): Dict<WordStat> {
    if words.Some? then AddAttempts(h, words.value, date) else h
  }

  /** The document `recordSession` saves and returns, given the loaded one. */
  function Recorded(doc: StatsDoc, input: SessionInput, id: string, date: string): StatsDoc {
    StatsDoc(
      RecordedBuckets(doc.gameStats, input.gameType, ResolveDifficulty(input.difficulty),
                      input.wordsCompleted, input.wordsCorrect),
      PushSession(doc.recentSessions, NewSession(input, id, date)),
      RecordedHistory(doc.wordHistory, input.words, date))
  }

  // ----- getOverallStats -----

  datatype Counter = Games | Words | Correct

  function Count(b: Bucket, c: Counter): nat {
    match c
    case Games => b.totalGames
    case Words => b.totalWords
    case Correct => b.correctWords
  }

  /** Sum of one counter over the buckets of one game type. */
  function DifficultyTotal(d: Difficulties, c: Counter): nat {
    if d == [] then 0 else Count(d[0].value, c) + DifficultyTotal(d[1..], c)
  }

  /** Sum of one counter over every bucket of every game type. */
  function GrandTotal(gs: GameStats, c: Counter): nat {
    if gs == [] then 0 else DifficultyTotal(gs[0].value, c) + GrandTotal(gs[1..], c)
  }

  datatype OverallStats = OverallStats(
    totalGames: nat,
    totalWords: nat,
    totalCorrect: nat,
    overallAccuracy: real,
    recentSessions: seq<Session>,
    wordHistory: Dict<WordStat>)

  function Overall(doc: StatsDoc): OverallStats {
    var words := GrandTotal(doc.gameStats, Words);
    var correct := GrandTotal(doc.gameStats, Correct);
    OverallStats(
      GrandTotal(doc.gameStats, Games), words, correct,
      if words > 0 then correct as real / words as real else 0.0,
      doc.recentSessions[..Min(OverviewSessionCount, |doc.recentSessions|)],
      doc.wordHistory)
  }

  // ----- getImprovementSuggestions -----

  datatype Suggestion =
    | LowAccuracy(gameType: string, difficulty: string, accuracy: Number)
    | ProblemWords(words: seq<string>)

  /** `stat.totalWords > 5 && stat.averageAccuracy < 0.7` (Infinity is not below 0.7). */
  predicate NeedsPractice(b: Bucket) {
    b.totalWords > AdviceMinWords && b.averageAccuracy.Finite? && b.averageAccuracy.value < AdviceAccuracyBelow
  }

  function LowAccuracyIn(gameType: string, d: Difficulties): seq<Suggestion> {
    if d == [] then []
    else
      (if NeedsPractice(d[0].value) then [LowAccuracy(gameType, d[0].key, d[0].value.averageAccuracy)] else [])
      + LowAccuracyIn(gameType, d[1..])
  }

  /** The low-accuracy suggestions, game type by game type, bucket by bucket. */
  function LowAccuracySuggestions(gs: GameStats): seq<Suggestion> {
    if gs == [] then [] else LowAccuracyIn(gs[0].key, gs[0].value) + LowAccuracySuggestions(gs[1..])
  }

  /** `correct / attempts`, used only where attempts >= 3. */
  function SuccessRatio(w: WordStat): real {
    if w.attempts == 0 then 0.0 else w.correct as real / w.attempts as real
  }

  predicate IsProblem(w: WordStat) {
    w.attempts >= ProblemMinAttempts && SuccessRatio(w) < ProblemRatioBelow
  }

  /** The `filter` step, in insertion order. */
  function ProblemEntries(h: Dict<WordStat>): Dict<WordStat> {
    if h == [] then []
    else (if IsProblem(h[0].value) then [h[0]] else []) + ProblemEntries(h[1..])
  }

  /** Places `e` before the first entry whose ratio is not below its own. */
  function InsertByRatio(e: Entry<WordStat>, sorted: Dict<WordStat>): Dict<WordStat> {
    if sorted == [] || SuccessRatio(e.value) <= SuccessRatio(sorted[0].value) then [e] + sorted
    else [sorted[0]] + InsertByRatio(e, sorted[1..])
  }

  /** The `sort` step: a stable sort by ascending success ratio. */
  function SortByRatio(es: Dict<WordStat>): Dict<WordStat> {
    if es == [] then [] else InsertByRatio(es[0], SortByRatio(es[1..]))
  }

  /** The `slice(0, 5)` and `map(([word]) => word)` steps. */
  function ProblemWordList(h: Dict<WordStat>): seq<string> {
    var sorted := SortByRatio(ProblemEntries(h));
    Keys(sorted[..Min(ProblemWordLimit, |sorted|)])
  }

  function ProblemWordsSuggestion(h: Dict<WordStat>): seq<Suggestion> {
    var words := ProblemWordList(h);
    if words == [] then [] else [ProblemWords(words)]
  }

  function Suggestions(doc: StatsDoc): seq<Suggestion> {
    LowAccuracySuggestions(doc.gameStats) + ProblemWordsSuggestion(doc.wordHistory)
  }
}
