/**
 * The pieces both games share, written once: the Fisher-Yates `scrambleArray`,
 * the parsing of the custom word list in `handleStartGame`, the choice of the
 * word source in `handleStartGame`, `filter`-by-index, and the counting of
 * results in `handleNext`. Each game file carries its own copy of these in the
 * source; the copies are identical.
 */
module GameCommon {
  import opened Wrappers
  import StatsModel

  // ----- scrambleArray -----

  /**
   * `scrambleArray`: copies the input into a fresh array and swaps each
   * position i, from the last down to 1, with a position j in [0, i]. The
   * choice of j stands for `Math.floor(Math.random() * (i + 1))`.
   */
  method Scramble<T>(a: seq<T>) returns (r: seq<T>)
    ensures |r| == |a|
    ensures multiset(r) == multiset(a)
  {
    var scrambled := new T[|a|](k requires 0 <= k < |a| => a[k]);
    assert scrambled[..] == a;
    var i := scrambled.Length - 1;
    while i > 0
      invariant -1 <= i < scrambled.Length
      invariant multiset(scrambled[..]) == multiset(a)
    {
      var j :| 0 <= j <= i;
      scrambled[i], scrambled[j] := scrambled[j], scrambled[i];
      i := i - 1;
    }
    r := scrambled[..];
  }

  // ----- filter by index -----

  /**
   * `list.filter((_, i) => i !== index)`: drops the element at `index`, or
   * nothing when `index` is not a position of the list.
   */
  function RemoveAt<T>(s: seq<T>, index: int): (r: seq<T>)
    ensures 0 <= index < |s| ==> |r| == |s| - 1
    ensures !(0 <= index < |s|) ==> r == s
  {
    if 0 <= index < |s| then s[..index] + s[index + 1..] else s
  }

  /** The elements before `index` stay in place and those after it move down by one. */
  lemma RemoveAtShifts<T>(s: seq<T>, index: nat)
    requires index < |s|
    ensures forall k :: 0 <= k < index ==> RemoveAt(s, index)[k] == s[k]
    ensures forall k :: index <= k < |s| - 1 ==> RemoveAt(s, index)[k] == s[k + 1]
  {
  }

  /** Removing one element takes exactly that element out of the multiset. */
  lemma RemoveAtMultiset<T>(s: seq<T>, index: nat)
    requires index < |s|
    ensures multiset(RemoveAt(s, index)) + multiset{s[index]} == multiset(s)
  {
    assert s == s[..index] + [s[index]] + s[index + 1..];
  }

  // ----- the custom word list -----

  predicate IsSeparator(c: char) { c == ',' || c == '\n' }

  /**
   * The characters `String.prototype.trim` strips: the ECMAScript WhiteSpace
   * (tab, vertical tab, form feed, the byte order mark and every space
   * separator) and LineTerminator characters.
   */
  predicate IsWhitespace(c: char) {
    c == '\t' || c == '\U{000B}' || c == '\U{000C}' || c == ' ' || c == '\U{00A0}' || c == '\U{FEFF}'
    || c == '\n' || c == '\r' || c == '\U{2028}' || c == '\U{2029}'
    || c == '\U{1680}' || '\U{2000}' <= c <= '\U{200A}' || c == '\U{202F}' || c == '\U{205F}' || c == '\U{3000}'
  }

  /** `split(/[,\n]/)`: the pieces between separators, empty ones included. */
  function Split(s: string): (r: seq<string>)
    ensures |r| >= 1
  {
    if s == [] then [""]
    else
      var rest := Split(s[1..]);
      if IsSeparator(s[0]) then [""] + rest else [[s[0]] + rest[0]] + rest[1..]
  }

  function TrimStart(s: string): (r: string)
    ensures r == [] || !IsWhitespace(r[0])
  {
    if s != [] && IsWhitespace(s[0]) then TrimStart(s[1..]) else s
  }

  function TrimEnd(s: string): (r: string)
    ensures r == [] || !IsWhitespace(r[|r| - 1])
  {
    if s != [] && IsWhitespace(s[|s| - 1]) then TrimEnd(s[..|s| - 1]) else s
  }

  /** `String.prototype.trim`. */
  function Trim(s: string): string {
    TrimEnd(TrimStart(s))
  }

  predicate Trimmed(s: string) {
    s == [] || (!IsWhitespace(s[0]) && !IsWhitespace(s[|s| - 1]))
  }

  /** `map((w) => w.trim()).filter((w) => w.length > 0)`. */
  function TrimAndDropEmpty(pieces: seq<string>): seq<string> {
    if pieces == [] then []
    else (if Trim(pieces[0]) != "" then [Trim(pieces[0])] else []) + TrimAndDropEmpty(pieces[1..])
  }

  const EnterWordsMessage: string := "Please enter at least one word"

  /**
   * The custom-input branch of `handleStartGame` up to the call that turns
   * the list into words: blank input is refused, then the input is split,
   * trimmed and emptied of blank entries, and an empty list is refused with
   * the same message.
   */
  function ParseWordList(input: string): (r: Result<seq<string>>)
    ensures r.Err? ==> r.error == EnterWordsMessage
  {
    if Trim(input) == "" then Err(EnterWordsMessage)
    else
      var words := TrimAndDropEmpty(Split(input));
      if |words| == 0 then Err(EnterWordsMessage) else Ok(words)
  }

  // ----- the word source -----

  /** The three word files bundled with a game. */
  datatype Banks<B> = Banks(easy: seq<B>, medium: seq<B>, hard: seq<B>)

  /** The `switch` on the difficulty; `None` is its `default` branch. */
  function BankFor<B>(difficulty: string, banks: Banks<B>): (r: Option<seq<B>>)
    ensures r.None? <==> difficulty !in {"easy", "medium", "hard"}
  {
    if difficulty == "easy" then Some(banks.easy)
    else if difficulty == "medium" then Some(banks.medium)
    else if difficulty == "hard" then Some(banks.hard)
    else None
  }

  const InvalidDifficultyMessage: string := "Invalid difficulty level"
  const NoWordsMessage: string := "No words were successfully processed"
  const ProcessFailedMessage: string := "Failed to process words"

  /**
   * The words `handleStartGame` starts with, or the message it shows. A
   * truthy difficulty picks a bundled file, whose items `convert` turns into
   * words; otherwise the custom list goes through `process`, the
   * language-model call, whose failure carries its own message. An empty
   * word list is refused either way.
   */
  function ChooseWords<B, W>(difficulty: Option<string>, input: string, banks: Banks<B>,
                             convert: B -> W, process: seq<string> -> Result<seq<W>>): (r: Result<seq<W>>)
    ensures r.Ok? ==> |r.value| > 0
  {
    if StatsModel.Truthy(difficulty) then
      match BankFor(difficulty.value, banks)
      case None => Err(InvalidDifficultyMessage)
      case Some(items) =>
        var words := seq(|items|, k requires 0 <= k < |items| => convert(items[k]));
        if |words| == 0 then Err(NoWordsMessage) else Ok(words)
    else
      match ParseWordList(input)
      case Err(e) => Err(e)
      case Ok(list) =>
        match process(list)
        case Err(e) => Err(if e != "" then e else ProcessFailedMessage)
        case Ok(words) => if |words| == 0 then Err(NoWordsMessage) else Ok(words)
  }

  // ----- results -----

  /** `wordResults.filter((r) => r).length`. */
  function CountTrue(results: seq<bool>): nat {
    if results == [] then 0 else (if results[0] then 1 else 0) + CountTrue(results[1..])
  }

  /** The results a game starts with: one `false` per word. */
  function AllFalse(n: nat): (r: seq<bool>)
    ensures |r| == n
    ensures forall k :: 0 <= k < n ==> !r[k]
  {
    seq(n, k => false)
  }

  /**
   * The session a finished game records: `wordsCompleted` is the number of
   * results, `wordsCorrect` the number of true ones, with the game's words.
   */
  function Summary(gameType: string, difficulty: Option<string>, results: seq<bool>, words: seq<string>,
                   timeSpent: nat): StatsModel.SessionInput
  {
    StatsModel.SessionInput(gameType, difficulty, |results|, CountTrue(results), Some(timeSpent),
                            Some(seq(|words|, k requires 0 <= k < |words| => StatsModel.Text(words[k]))))
  }
}
