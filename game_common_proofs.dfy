/**
 * What the shared game pieces promise: the custom word list holds clean
 * words, it is refused exactly when the input has nothing but separators and
 * whitespace, a comma-joined list of clean words parses back to itself, and
 * the result count of a finished game is bounded by its word count.
 */
module GameCommonProofs {
  import opened Wrappers
  import opened GameCommon
  import StatsModel

  predicate AllWhitespace(s: string) {
    forall i :: 0 <= i < |s| ==> IsWhitespace(s[i])
  }

  predicate NoSeparator(s: string) {
    forall i :: 0 <= i < |s| ==> !IsSeparator(s[i])
  }

  /** A character that survives splitting and trimming. */
  predicate Visible(c: char) {
    !IsSeparator(c) && !IsWhitespace(c)
  }

  // ----- trimming -----

  lemma {:induction false} TrimStartSuffix(s: string)
    ensures |TrimStart(s)| <= |s|
    ensures TrimStart(s) == s[|s| - |TrimStart(s)|..]
  {
    if s != [] && IsWhitespace(s[0]) {
      TrimStartSuffix(s[1..]);
    }
  }

  lemma {:induction false} TrimEndPrefix(s: string)
    ensures |TrimEnd(s)| <= |s|
    ensures TrimEnd(s) == s[..|TrimEnd(s)|]
  {
    if s != [] && IsWhitespace(s[|s| - 1]) {
      TrimEndPrefix(s[..|s| - 1]);
    }
  }

  lemma {:induction false} TrimStartEmpty(s: string)
    ensures TrimStart(s) == [] <==> AllWhitespace(s)
  {
    if s != [] && IsWhitespace(s[0]) {
      TrimStartEmpty(s[1..]);
      assert AllWhitespace(s) <==> AllWhitespace(s[1..]) by {
        assert forall i :: 0 < i < |s| ==> s[i] == s[1..][i - 1];
      }
    }
  }

  lemma {:induction false} TrimEndEmpty(s: string)
    ensures TrimEnd(s) == [] <==> AllWhitespace(s)
  {
    if s != [] && IsWhitespace(s[|s| - 1]) {
      TrimEndEmpty(s[..|s| - 1]);
    }
  }

  /** `trim()` gives the empty string exactly for all-whitespace input. */
  lemma TrimEmpty(s: string)
    ensures Trim(s) == [] <==> AllWhitespace(s)
  {
    TrimStartEmpty(s);
    TrimEndEmpty(TrimStart(s));
    TrimStartSuffix(s);
    if TrimStart(s) != [] {
      assert !AllWhitespace(TrimStart(s));
    }
  }

  /** `trim()` gives a contiguous part of its input that starts and ends visibly. */
  lemma TrimIsTrimmedSlice(s: string)
    ensures Trimmed(Trim(s))
    ensures exists i, j :: 0 <= i <= j <= |s| && Trim(s) == s[i..j]
  {
    var t := TrimStart(s);
    TrimStartSuffix(s);
    TrimEndPrefix(t);
    var i := |s| - |t|;
    assert Trim(s) == s[i..i + |TrimEnd(t)|];
    if Trim(s) != [] {
      assert Trim(s)[0] == t[0];
    }
  }

  /** Trimming a trimmed string changes nothing. */
  lemma TrimTrimmed(s: string)
    requires Trimmed(s)
    ensures Trim(s) == s
  {
  }

  // ----- splitting -----

  /** No piece of the split holds a separator. */
  lemma {:induction false} SplitPiecesHaveNoSeparator(s: string)
    ensures forall k :: 0 <= k < |Split(s)| ==> NoSeparator(Split(s)[k])
  {
    if s != [] {
      SplitPiecesHaveNoSeparator(s[1..]);
      var rest := Split(s[1..]);
      if !IsSeparator(s[0]) {
        var first := [s[0]] + rest[0];
        assert NoSeparator(rest[0]);
        assert forall i :: 0 < i < |first| ==> first[i] == rest[0][i - 1];
        assert NoSeparator(first);
      }
    }
  }

  /** Splitting a string that starts with a separator-free word. */
  lemma {:induction false} SplitAfterWord(w: string, t: string)
    requires NoSeparator(w)
    ensures Split(w + t) == [w + Split(t)[0]] + Split(t)[1..]
  {
    if w != [] {
      assert (w + t)[1..] == w[1..] + t;
      SplitAfterWord(w[1..], t);
      assert [w[0]] + (w[1..] + Split(t)[0]) == w + Split(t)[0];
    } else {
      assert w + t == t;
      assert w + Split(t)[0] == Split(t)[0];
      assert Split(t) == [Split(t)[0]] + Split(t)[1..];
    }
  }

  /** Every piece trims to empty. */
  predicate AllBlank(pieces: seq<string>) {
    forall k :: 0 <= k < |pieces| ==> Trim(pieces[k]) == []
  }

  /** Every piece of the split is blank exactly when the input is. */
  lemma {:induction false} SplitAllBlank(s: string)
    ensures AllBlank(Split(s)) <==> (forall i :: 0 <= i < |s| ==> !Visible(s[i]))
  {
    if s != [] {
      SplitAllBlank(s[1..]);
      var rest := Split(s[1..]);
      var pieces := Split(s);
      assert (forall i :: 0 <= i < |s| ==> !Visible(s[i]))
         <==> !Visible(s[0]) && (forall i :: 0 <= i < |s[1..]| ==> !Visible(s[1..][i])) by {
        assert forall i :: 0 < i < |s| ==> s[i] == s[1..][i - 1];
      }
      if IsSeparator(s[0]) {
        assert pieces == [""] + rest;
        assert Trim("") == [];
        if AllBlank(rest) {
          forall k | 0 <= k < |pieces| ensures Trim(pieces[k]) == [] {
            if k > 0 { assert pieces[k] == rest[k - 1]; }
          }
        }
        if AllBlank(pieces) {
          forall k | 0 <= k < |rest| ensures Trim(rest[k]) == [] {
            assert rest[k] == pieces[k + 1];
          }
        }
      } else {
        var first := [s[0]] + rest[0];
        assert pieces == [first] + rest[1..];
        TrimEmpty(first);
        TrimEmpty(rest[0]);
        assert AllWhitespace(first) <==> IsWhitespace(s[0]) && AllWhitespace(rest[0]) by {
          assert forall i :: 0 < i < |first| ==> first[i] == rest[0][i - 1];
        }
        if IsWhitespace(s[0]) && AllBlank(rest) {
          forall k | 0 <= k < |pieces| ensures Trim(pieces[k]) == [] {
            if k > 0 { assert pieces[k] == rest[k]; }
          }
        }
        if AllBlank(pieces) {
          assert Trim(pieces[0]) == [];
          forall k | 0 <= k < |rest| ensures Trim(rest[k]) == [] {
            if k > 0 { assert rest[k] == pieces[k]; }
          }
        }
      }
    }
  }

  // ----- trimming and dropping the empty entries -----

  lemma {:induction false} TrimAndDropEmptyIsEmpty(pieces: seq<string>)
    ensures TrimAndDropEmpty(pieces) == [] <==> forall k :: 0 <= k < |pieces| ==> Trim(pieces[k]) == []
  {
    if pieces != [] {
      TrimAndDropEmptyIsEmpty(pieces[1..]);
      assert forall k :: 0 < k < |pieces| ==> pieces[k] == pieces[1..][k - 1];
    }
  }

  /** Every kept entry is the trim of some piece, and not empty. */
  lemma {:induction false} TrimAndDropEmptyEntries(pieces: seq<string>)
    ensures forall w :: w in TrimAndDropEmpty(pieces) ==>
              w != [] && exists k :: 0 <= k < |pieces| && w == Trim(pieces[k])
  {
    if pieces != [] {
      TrimAndDropEmptyEntries(pieces[1..]);
      forall w | w in TrimAndDropEmpty(pieces)
        ensures w != [] && exists k :: 0 <= k < |pieces| && w == Trim(pieces[k])
      {
        if w in TrimAndDropEmpty(pieces[1..]) {
          var k :| 0 <= k < |pieces[1..]| && w == Trim(pieces[1..][k]);
          assert w == Trim(pieces[k + 1]);
        } else {
          assert w == Trim(pieces[0]);
        }
      }
    }
  }

  /** Clean words pass through unchanged. */
  lemma {:induction false} TrimAndDropEmptyClean(ws: seq<string>)
    requires forall k :: 0 <= k < |ws| ==> ws[k] != [] && Trimmed(ws[k])
    ensures TrimAndDropEmpty(ws) == ws
  {
    if ws != [] {
      TrimTrimmed(ws[0]);
      TrimAndDropEmptyClean(ws[1..]);
    }
  }

  // ----- the parsed word list -----

  /** Every parsed word is non-empty, trimmed and free of separators. */
  lemma ParsedWordsAreClean(input: string)
    requires ParseWordList(input).Ok?
    ensures |ParseWordList(input).value| > 0
    ensures forall w :: w in ParseWordList(input).value ==> w != [] && Trimmed(w) && NoSeparator(w)
  {
    var pieces := Split(input);
    TrimAndDropEmptyEntries(pieces);
    SplitPiecesHaveNoSeparator(input);
    forall w | w in ParseWordList(input).value
      ensures w != [] && Trimmed(w) && NoSeparator(w)
    {
      var k :| 0 <= k < |pieces| && w == Trim(pieces[k]);
      TrimIsTrimmedSlice(pieces[k]);
      var i, j :| 0 <= i <= j <= |pieces[k]| && w == pieces[k][i..j];
      assert forall c :: 0 <= c < |w| ==> w[c] == pieces[k][i + c];
    }
  }

  /** The custom list is accepted exactly when the input holds a visible character. */
  lemma ParseSucceedsIff(input: string)
    ensures ParseWordList(input).Ok? <==> exists i :: 0 <= i < |input| && Visible(input[i])
  {
    TrimEmpty(input);
    SplitAllBlank(input);
    TrimAndDropEmptyIsEmpty(Split(input));
  }

  /** The words joined with commas, as a user would type them. */
  function JoinWithCommas(ws: seq<string>): string
    requires |ws| > 0
  {
    if |ws| == 1 then ws[0] else ws[0] + [','] + JoinWithCommas(ws[1..])
  }

  lemma {:induction false} SplitJoin(ws: seq<string>)
    requires |ws| > 0
    requires forall k :: 0 <= k < |ws| ==> NoSeparator(ws[k])
    ensures Split(JoinWithCommas(ws)) == ws
  {
    if |ws| == 1 {
      SplitAfterWord(ws[0], "");
      assert ws[0] + "" == ws[0];
    } else {
      var tail := JoinWithCommas(ws[1..]);
      SplitJoin(ws[1..]);
      SplitAfterWord(ws[0], [','] + tail);
      assert ([','] + tail)[1..] == tail;
      assert ws[0] + [','] + tail == ws[0] + ([','] + tail);
      assert ws[0] + "" == ws[0];
    }
  }

  /** Clean words typed as a comma-separated list parse back to the same list. */
  lemma ParseJoinRoundTrip(ws: seq<string>)
    requires |ws| > 0
    requires forall k :: 0 <= k < |ws| ==> ws[k] != [] && Trimmed(ws[k]) && NoSeparator(ws[k])
    ensures ParseWordList(JoinWithCommas(ws)) == Ok(ws)
  {
    var s := JoinWithCommas(ws);
    SplitJoin(ws);
    TrimAndDropEmptyClean(ws);
    assert s[0] == ws[0][0];
    TrimEmpty(s);
  }

  // ----- results -----

  lemma {:induction false} CountTrueBound(results: seq<bool>)
    ensures CountTrue(results) <= |results|
    ensures CountTrue(results) == |results| <==> forall k :: 0 <= k < |results| ==> results[k]
  {
    if results != [] {
      CountTrueBound(results[1..]);
      assert forall k :: 0 < k < |results| ==> results[k] == results[1..][k - 1];
    }
  }

  /** A game that has not judged any word counts none as correct. */
  lemma {:induction false} CountTrueAllFalse(n: nat)
    ensures CountTrue(AllFalse(n)) == 0
  {
    if n > 0 {
      assert AllFalse(n)[1..] == AllFalse(n - 1);
      CountTrueAllFalse(n - 1);
    }
  }

  // ----- the word source -----

  /** How `handleStartGame` decides between starting and showing a message. */
  lemma ChooseWordsCases<B, W>(difficulty: Option<string>, input: string, banks: Banks<B>,
                                convert: B -> W, process: seq<string> -> Result<seq<W>>)
    ensures StatsModel.Truthy(difficulty) && difficulty.value !in {"easy", "medium", "hard"} ==>
              ChooseWords(difficulty, input, banks, convert, process) == Err(InvalidDifficultyMessage)
    ensures StatsModel.Truthy(difficulty) && BankFor(difficulty.value, banks).Some? ==>
              var items := BankFor(difficulty.value, banks).value;
              var r := ChooseWords(difficulty, input, banks, convert, process);
              (|items| == 0 ==> r == Err(NoWordsMessage)) &&
              (|items| > 0 ==>
                 (r.Ok? && |r.value| == |items| &&
                  forall k :: 0 <= k < |items| ==> r.value[k] == convert(items[k])))
    ensures !StatsModel.Truthy(difficulty) && (forall i :: 0 <= i < |input| ==> !Visible(input[i])) ==>
              ChooseWords(difficulty, input, banks, convert, process) == Err(EnterWordsMessage)
    ensures !StatsModel.Truthy(difficulty) && ParseWordList(input).Ok? ==>
              var r := ChooseWords(difficulty, input, banks, convert, process);
              match process(ParseWordList(input).value)
              case Ok(words) => r == (if |words| == 0 then Err(NoWordsMessage) else Ok(words))
              case Err(e) => r == Err(if e != "" then e else ProcessFailedMessage)
  {
    ParseSucceedsIff(input);
  }
}
