/**
 * The word-association test screen: after a test is chosen and its words
 * arrive, each word is shown for 15 seconds; when its time runs out it is
 * added to the list of shown words and the next one comes up, and after the
 * last word the summary lists every word shown.
 *
 * Time advances in ticks of one second; the effect that runs when the timer
 * reads 0 happens within the tick that brought it there. Sounds are counted,
 * not played.
 */
module WatSession {
  import Machine

  datatype WatState = WatState(
    availableTests: seq<nat>,
    selectedTest: nat,      // 0 while none is chosen
    words: seq<string>,
    index: nat,
    timer: nat,
    summary: bool,
    displayed: seq<string>,
    wordCues: nat,
    finalCues: nat)

  const WordSeconds: nat := 15
  const HeaderCap: nat := 60

  function Initial(): WatState {
    WatState([], 0, [], 0, WordSeconds, false, [], 0, 0)
  }

  /**
   * What holds once a test is under way: the timer is running unless the
   * summary is up, and the shown words are exactly the words before the
   * current one, or all of them at the summary.
   */
  predicate Inv(s: WatState) {
    && s.timer <= WordSeconds
    && (if s.summary then
          s.words != [] && s.index == |s.words| - 1 && s.displayed == s.words
        else
          s.timer > 0 && s.index <= |s.words| && (s.index == 0 || s.index < |s.words|) &&
          s.displayed == s.words[..s.index])
  }

  /** `handleTestSelect`: back to the first word with a full timer and nothing shown. */
  function Select(s: WatState, testNumber: nat): (r: WatState)
    ensures Inv(r) && r.words == s.words
  {
    s.(selectedTest := testNumber, index := 0, timer := WordSeconds, summary := false, displayed := [])
  }

  /** The words of the chosen test arrive; a sound marks a non-empty list. The list is not cut. */
  function Load(s: WatState, words: seq<string>): WatState {
    s.(words := words, wordCues := if words != [] then s.wordCues + 1 else s.wordCues)
  }

  /** The effect once the timer reads 0: the word is added to the shown ones, then the next word or the summary. */
  function Expire(s: WatState): WatState
    requires s.index < |s.words|
  {
    var t := s.(wordCues := s.wordCues + 1, displayed := s.displayed + [s.words[s.index]]);
    if s.index < |s.words| - 1 then t.(index := s.index + 1, timer := WordSeconds)
    else t.(finalCues := s.finalCues + 1, summary := true)
  }

  /** The countdown runs while there is a current word and no summary. */
  predicate Running(s: WatState) {
    !s.summary && s.index < |s.words|
  }

  /** One second. */
  function Step(s: WatState): WatState {
    if Running(s) && s.timer > 0 then
      var t := s.(timer := s.timer - 1);
      if t.timer == 0 then Expire(t) else t
    else s
  }

  /** The state after `k` seconds. */
  function Steps(s: WatState, k: nat): WatState {
    Machine.Steps(Step, s, k)
  }

  lemma InitialInv()
    ensures Inv(Initial()) && !Running(Initial())
  {
  }

  lemma StepInv(s: WatState)
    requires Inv(s)
    ensures Inv(Step(s))
  {
    if Running(s) && s.timer == 1 {
      var t := s.(timer := 0);
      assert s.words[..s.index] + [s.words[s.index]] == s.words[..s.index + 1];
      assert s.index == |s.words| - 1 ==> s.words[..s.index + 1] == s.words;
    }
  }

  /** The words arrive right after the test is chosen. */
  lemma LoadInv(s: WatState, words: seq<string>)
    requires Inv(s) && !s.summary && s.index == 0
    ensures Inv(Load(s, words))
  {
  }

  /** The summary is final: no tick changes anything, and it lists every word in order. */
  lemma SummaryIsFinal(s: WatState)
    requires Inv(s) && s.summary
    ensures Step(s) == s && s.displayed == s.words
  {
  }

  /** No countdown runs before the words are there. */
  lemma NoCountdownWithoutWords(s: WatState)
    requires s.words == []
    ensures Step(s) == s
  {
  }

  /** Before the time of a word runs out, each tick takes one second off it and nothing else. */
  lemma {:induction false} WordTicks(s: WatState, k: nat)
    requires Running(s) && k < s.timer
    ensures Steps(s, k) == s.(timer := s.timer - k)
    decreases k
  {
    if k > 0 {
      WordTicks(Step(s), k - 1);
    }
  }

  /** The word moves to the shown list exactly when its time runs out. */
  lemma {:induction false} WordEnds(s: WatState)
    requires Running(s) && s.timer > 0
    ensures Steps(s, s.timer) == Expire(s.(timer := 0))
    decreases s.timer
  {
    var next := s.(timer := s.timer - 1);
    if s.timer == 1 {
      assert Steps(s, 1) == Step(s);
    } else {
      assert Step(s) == next;
      WordEnds(next);
      assert next.(timer := 0) == s.(timer := 0);
    }
  }

  /** A word just shown, with the shown list as it should be. */
  predicate FreshWord(s: WatState) {
    Running(s) && s.timer == WordSeconds && s.displayed == s.words[..s.index]
  }

  /** A word that is not the last is followed by the next one 15 seconds after it was shown. */
  lemma NextWord(s: WatState)
    requires FreshWord(s) && s.index + 1 < |s.words|
    ensures Steps(s, WordSeconds) ==
      s.(index := s.index + 1, displayed := s.words[..s.index + 1], wordCues := s.wordCues + 1)
  {
    WordEnds(s);
    ExpireShowsWord(s.(timer := 0));
  }

  /** When a word's time runs out, it joins the shown words and the next word comes up with a full timer. */
  lemma ExpireShowsWord(s: WatState)
    requires s.index + 1 < |s.words| && s.displayed == s.words[..s.index]
    ensures Expire(s) ==
      s.(index := s.index + 1, timer := WordSeconds, displayed := s.words[..s.index + 1], wordCues := s.wordCues + 1)
  {
    assert s.words[..s.index] + [s.words[s.index]] == s.words[..s.index + 1];
  }

  /** Each word that is not the last takes exactly 15 seconds. */
  lemma {:induction false} AdvanceWords(s: WatState, m: nat)
    requires FreshWord(s) && s.index + m < |s.words|
    ensures Steps(s, WordSeconds * m) ==
      s.(index := s.index + m, displayed := s.words[..s.index + m], wordCues := s.wordCues + m)
    decreases m
  {
    if m > 0 {
      NextWord(s);
      var next := s.(index := s.index + 1, displayed := s.words[..s.index + 1], wordCues := s.wordCues + 1);
      AdvanceWords(next, m - 1);
      Machine.StepsAdd(Step, s, WordSeconds, WordSeconds * (m - 1));
      assert WordSeconds * m == WordSeconds + WordSeconds * (m - 1);
    }
  }

  /** The state once the last word's time has run out: the summary with every word shown. */
  function Finished(s: WatState): WatState {
    s.(timer := 0, summary := true, displayed := s.words,
       wordCues := s.wordCues + 1, finalCues := s.finalCues + 1)
  }

  /** Until the last word's time runs out, the summary does not come up. */
  lemma LastWordWaits(s: WatState)
    requires FreshWord(s) && s.index + 1 == |s.words|
    ensures !Steps(s, WordSeconds - 1).summary
  {
    WordTicks(s, WordSeconds - 1);
  }

  /** The last word brings up the summary 15 seconds after it was shown. */
  lemma LastWordEnds(s: WatState)
    requires FreshWord(s) && s.index + 1 == |s.words|
    ensures Steps(s, WordSeconds) == Finished(s)
  {
    WordEnds(s);
    ExpireShowsLastWord(s.(timer := 0));
  }

  /** When the last word's time runs out, every word has been shown and the summary comes up. */
  lemma ExpireShowsLastWord(s: WatState)
    requires s.index + 1 == |s.words| && s.displayed == s.words[..s.index]
    ensures Expire(s) == s.(summary := true, displayed := s.words, wordCues := s.wordCues + 1, finalCues := s.finalCues + 1)
  {
    assert s.words[..s.index] + [s.words[s.index]] == s.words;
  }

  /** The words before the last one take 15 seconds each. */
  lemma BeforeLastWord(s: WatState)
    requires FreshWord(s) && s.index == 0 && s.words != []
    ensures var n := |s.words|;
      Steps(s, WordSeconds * (n - 1)) ==
        s.(index := n - 1, displayed := s.words[..n - 1], wordCues := s.wordCues + n - 1)
  {
    AdvanceWords(s, |s.words| - 1);
  }

  /** The summary is not up one second before the last word's time runs out. */
  lemma RunWaits(s: WatState)
    requires FreshWord(s) && s.index == 0 && s.words != []
    ensures !Steps(s, WordSeconds * |s.words| - 1).summary
  {
    var n := |s.words|;
    var before := WordSeconds * (n - 1);
    BeforeLastWord(s);
    LastWordWaits(Steps(s, before));
    Machine.StepsAdd(Step, s, before, WordSeconds - 1);
  }

  /** The summary comes up when the last word's time runs out. */
  lemma RunEnds(s: WatState)
    requires FreshWord(s) && s.index == 0 && s.words != []
    ensures Steps(s, WordSeconds * |s.words|) == Finished(Steps(s, WordSeconds * (|s.words| - 1)))
  {
    var before := WordSeconds * (|s.words| - 1);
    BeforeLastWord(s);
    LastWordEnds(Steps(s, before));
    Machine.StepsAdd(Step, s, before, WordSeconds);
  }

  /**
   * From the first word, the summary comes after exactly 15 seconds per
   * word and not a second earlier; it lists all the words, with one sound
   * per word besides the one at loading, and one final sound.
   */
  lemma RunToSummary(s: WatState)
    requires FreshWord(s) && s.index == 0
    ensures var n := |s.words|;
      !Steps(s, WordSeconds * n - 1).summary &&
      Steps(s, WordSeconds * n) ==
        s.(index := n - 1, timer := 0, summary := true, displayed := s.words,
           wordCues := s.wordCues + n, finalCues := s.finalCues + 1)
  {
    RunWaits(s);
    RunEnds(s);
    BeforeLastWord(s);
  }

  /** Choosing a test and receiving its words starts the first word with a full timer. */
  lemma SelectThenLoad(s: WatState, testNumber: nat, words: seq<string>)
    requires words != []
    ensures FreshWord(Load(Select(s, testNumber), words)) && Load(Select(s, testNumber), words).index == 0
  {
  }

  // ---------------------------------------------------------------------
  // What the screen shows
  // ---------------------------------------------------------------------

  datatype WatScreen =
    | SelectionScreen(testCount: nat)
    | NoWordsScreen
    | SummaryScreen(shown: seq<string>)
    | WordScreen(number: nat, of: nat, seconds: nat, word: string)

  /**
   * The screens in the order the component tries them: the test selection
   * while no test is chosen, then the no-words notice, then the summary,
   * then the current word.
   */
  function Screen(s: WatState): (r: WatScreen)
    requires Inv(s)
    ensures r.SelectionScreen? <==> s.selectedTest == 0
    ensures r.NoWordsScreen? <==> s.selectedTest != 0 && s.words == []
    ensures r.SummaryScreen? <==> s.selectedTest != 0 && s.words != [] && s.summary
    ensures r.SelectionScreen? ==> r.testCount == |s.availableTests|
    ensures r.SummaryScreen? ==> r.shown == s.words
    ensures r.WordScreen? ==>
      && s.index < |s.words| && r.word == s.words[s.index] && r.number == s.index + 1
      && r.of <= HeaderCap && r.of <= |s.words| && (r.of == HeaderCap || r.of == |s.words|)
      && r.seconds == s.timer
  {
    if s.selectedTest == 0 then SelectionScreen(|s.availableTests|)
    else if s.words == [] then NoWordsScreen
    else if s.summary then SummaryScreen(s.displayed)
    else WordScreen(s.index + 1, if |s.words| < HeaderCap then |s.words| else HeaderCap, s.timer, s.words[s.index])
  }

  /** A test run ends on the summary screen, listing every word. */
  lemma RunShowsSummary(s: WatState)
    requires FreshWord(s) && s.index == 0 && s.selectedTest != 0
    ensures var end := Steps(s, WordSeconds * |s.words|);
      Inv(end) && Screen(end) == SummaryScreen(s.words)
  {
    RunToSummary(s);
  }

  /**
   * The header caps the word count at 60 but the run is not cut: with more
   * than 60 words the 61st is announced as "Word 61 of 60".
   */
  lemma HeaderPastCap(s: WatState)
    requires Inv(s) && s.selectedTest != 0 && !s.summary && |s.words| > HeaderCap && s.index == HeaderCap
    ensures Screen(s) == WordScreen(HeaderCap + 1, HeaderCap, s.timer, s.words[HeaderCap])
  {
  }

  // ---------------------------------------------------------------------
  // The component
  // ---------------------------------------------------------------------

  class WatTest {
    var availableTests: seq<nat>
    var selectedTest: nat
    var words: seq<string>
    var currentIndex: nat
    var timer: nat
    var showSummary: bool
    var displayedWords: seq<string>
    var wordCues: nat
    var finalCues: nat

    function State(): WatState
      reads this
    {
      WatState(availableTests, selectedTest, words, currentIndex, timer, showSummary, displayedWords, wordCues, finalCues)
    }

    constructor()
      ensures State() == Initial()
    {
      availableTests, selectedTest, words := [], 0, [];
      currentIndex, timer, showSummary, displayedWords := 0, WordSeconds, false, [];
      wordCues, finalCues := 0, 0;
    }

    /** The test list fetched on mount. */
    method LoadAvailableTests(tests: seq<nat>)
      modifies this
      ensures State() == old(State()).(availableTests := tests)
    {
      availableTests := tests;
    }

    method SelectTest(testNumber: nat)
      modifies this
      ensures State() == Select(old(State()), testNumber)
    {
      selectedTest := testNumber;
      currentIndex := 0;
      timer := WordSeconds;
      showSummary := false;
      displayedWords := [];
    }

    method LoadWords(list: seq<string>)
      modifies this
      ensures State() == Load(old(State()), list)
    {
      words := list;
      if |list| > 0 {
        wordCues := wordCues + 1;
      }
    }

    /** The timer effect for one second. */
    method Tick()
      modifies this
      ensures State() == Step(old(State()))
    {
      if !showSummary && currentIndex < |words| && timer > 0 {
        timer := timer - 1;
        if timer == 0 {
          wordCues := wordCues + 1;
          displayedWords := displayedWords + [words[currentIndex]];
          if currentIndex < |words| - 1 {
            currentIndex := currentIndex + 1;
            timer := WordSeconds;
          } else {
            finalCues := finalCues + 1;
            showSummary := true;
          }
        }
      }
    }
  }
}
