/**
 * The situational-response test screen: a test is chosen, at most its first
 * sixty situations are loaded, and once started the whole list is answered
 * against a single 30-minute clock; when the clock runs out the list is
 * shown for review.
 *
 * Time advances in ticks of one second; effects that run without a timer
 * happen within the tick that caused them. The final sound is counted, not
 * played.
 */
module SrtSession {
  import Machine
  import opened SrtParse
  import opened TimeFormat

  datatype SrtState = SrtState(
    availableTests: seq<nat>,
    selectedTest: nat,      // 0 while none is chosen
    srts: seq<SrtItem>,
    timer: nat,
    started: bool,
    complete: bool,
    finalCues: nat)

  const TestSeconds: nat := 1800
  const ItemCap: nat := 60

  function Initial(): SrtState {
    SrtState([], 0, [], TestSeconds, false, false, 0)
  }

  predicate Inv(s: SrtState) {
    && s.timer <= TestSeconds
    && |s.srts| <= ItemCap
    && (s.complete ==> s.started && s.timer == 0)
    && (s.started && !s.complete ==> s.timer > 0)
  }

  /** `handleTestSelect`: a full clock, not started, not complete; the list is reloaded separately. */
  function Select(s: SrtState, testNumber: nat): SrtState {
    s.(selectedTest := testNumber, timer := TestSeconds, started := false, complete := false)
  }

  /** `loadSRTs`: a list longer than sixty is cut to its first sixty. */
  function CapItems(list: seq<SrtItem>): (r: seq<SrtItem>)
    ensures |r| == if |list| > ItemCap then ItemCap else |list|
    ensures r == list[..|r|]
  {
    if |list| > ItemCap then list[..ItemCap] else list
  }

  function Load(s: SrtState, list: seq<SrtItem>): SrtState {
    s.(srts := CapItems(list))
  }

  /** `startTest` only marks the test as started. */
  function Start(s: SrtState): SrtState {
    s.(started := true)
  }

  /**
   * One second. The tick that brings the clock to 0 completes the test; the
   * effect runs once for the clock reaching 0 and once more because the
   * completion flag it sets is one of its dependencies, so the final sound
   * plays twice.
   */
  function Step(s: SrtState): SrtState {
    if s.started && !s.complete && s.timer > 0 then
      if s.timer == 1 then s.(timer := 0, complete := true, finalCues := s.finalCues + 2)
      else s.(timer := s.timer - 1)
    else s
  }

  /** The state after `k` seconds. */
  function Steps(s: SrtState, k: nat): SrtState {
    Machine.Steps(Step, s, k)
  }

  lemma InitialInv()
    ensures Inv(Initial()) && !Initial().started
  {
  }

  /** Every event keeps the invariant. */
  lemma EventsKeepInv(s: SrtState, testNumber: nat, list: seq<SrtItem>)
    requires Inv(s)
    ensures Inv(Step(s)) && Inv(Select(s, testNumber)) && Inv(Load(s, list))
    ensures s.timer > 0 ==> Inv(Start(s))
  {
  }

  /** Choosing a test resets the clock and the flags and keeps nothing else from the run. */
  lemma SelectResets(s: SrtState, testNumber: nat)
    ensures var r := Select(s, testNumber);
      r.timer == TestSeconds && !r.started && !r.complete && r.srts == s.srts && r.selectedTest == testNumber
  {
  }

  /** At most sixty situations, the first ones of the list, in order; a list of sixty or fewer is kept whole. */
  lemma LoadKeepsFirstSixty(s: SrtState, list: seq<SrtItem>)
    ensures var r := Load(s, list).srts;
      |r| <= ItemCap && r == list[..|r|] && (|list| <= ItemCap ==> r == list)
  {
  }

  /** Until the test is started, no tick changes anything. */
  lemma NoTickBeforeStart(s: SrtState)
    requires !s.started
    ensures Step(s) == s
  {
  }

  /** Once complete, nothing changes any more and the clock stays at 0. */
  lemma CompleteIsFinal(s: SrtState)
    requires Inv(s) && s.complete
    ensures Step(s) == s && Step(s).timer == 0
  {
  }

  /** While the clock runs, each tick takes exactly one second off it. */
  lemma {:induction false} Countdown(s: SrtState, k: nat)
    requires s.started && !s.complete && k < s.timer
    ensures Steps(s, k) == s.(timer := s.timer - k)
    decreases k
  {
    if k > 0 {
      Countdown(Step(s), k - 1);
    }
  }

  /** The test completes exactly when the clock runs out, with the final sound twice. */
  lemma {:induction false} ClockRunsOut(s: SrtState)
    requires s.started && !s.complete && s.timer > 0
    ensures Steps(s, s.timer) == s.(timer := 0, complete := true, finalCues := s.finalCues + 2)
    decreases s.timer
  {
    if s.timer == 1 {
      assert Steps(s, 1) == Step(s);
    } else {
      var next := s.(timer := s.timer - 1);
      assert Step(s) == next;
      ClockRunsOut(next);
    }
  }

  /** A started test completes 1800 seconds after the start, and not a second earlier. */
  lemma CompletesAfterHalfHour(s: SrtState)
    requires s.started && !s.complete && s.timer == TestSeconds
    ensures !Steps(s, TestSeconds - 1).complete
    ensures Steps(s, TestSeconds) == s.(timer := 0, complete := true, finalCues := s.finalCues + 2)
  {
    Countdown(s, TestSeconds - 1);
    ClockRunsOut(s);
  }

  /** Choosing a test, loading its list and starting it puts the full clock in motion. */
  lemma SelectLoadStart(s: SrtState, testNumber: nat, list: seq<SrtItem>)
    ensures var r := Start(Load(Select(s, testNumber), list));
      r.started && !r.complete && r.timer == TestSeconds
  {
  }

  // ---------------------------------------------------------------------
  // What the screen shows
  // ---------------------------------------------------------------------

  datatype SrtScreen =
    | SelectionScreen(testCount: nat)
    | NoSrtsScreen
    | ReadyScreen(clock: string, itemCount: nat)
    | RunningScreen(clock: string, items: seq<SrtItem>)
    | ReviewScreen(clock: string, items: seq<SrtItem>)

  /**
   * The screens in the order the component tries them: the test selection
   * while no test is chosen, then the no-situations notice, then the start
   * screen, then the review once the time is up, otherwise the running
   * list. Before the start the clock shows the fixed text "30:00";
   * afterwards the time left.
   */
  function Screen(s: SrtState): (r: SrtScreen)
    ensures r.SelectionScreen? <==> s.selectedTest == 0
    ensures r.NoSrtsScreen? <==> s.selectedTest != 0 && s.srts == []
    ensures r.ReadyScreen? <==> s.selectedTest != 0 && s.srts != [] && !s.started
    ensures r.ReviewScreen? <==> s.selectedTest != 0 && s.srts != [] && s.started && s.complete
    ensures r.SelectionScreen? ==> r.testCount == |s.availableTests|
    ensures r.ReadyScreen? ==> r.clock == "30:00" && r.itemCount == |s.srts|
    ensures r.ReviewScreen? ==> r.clock == FormatTime(s.timer) && r.items == s.srts
    ensures r.RunningScreen? ==> r.clock == FormatTime(s.timer) && r.items == s.srts
  {
    if s.selectedTest == 0 then SelectionScreen(|s.availableTests|)
    else if s.srts == [] then NoSrtsScreen
    else if !s.started then ReadyScreen("30:00", |s.srts|)
    else if s.complete then ReviewScreen(FormatTime(s.timer), s.srts)
    else RunningScreen(FormatTime(s.timer), s.srts)
  }

  /**
   * The fixed text before the start is what the clock shows at the start,
   * so starting does not change the display; at the end the clock reads
   * "0:00" over the whole list.
   */
  lemma StartKeepsClock(s: SrtState)
    requires s.selectedTest != 0 && s.srts != [] && !s.started && s.timer == TestSeconds
    ensures Screen(s).clock == Screen(Start(s)).clock == "30:00"
  {
    FormatTimeOfHalfHour();
  }

  lemma ReviewAtZero(s: SrtState)
    requires Inv(s) && s.selectedTest != 0 && s.srts != [] && s.complete
    ensures Screen(s) == ReviewScreen("0:00", s.srts)
  {
    FormatTimeOfZero();
  }

  // ---------------------------------------------------------------------
  // The component
  // ---------------------------------------------------------------------

  class SrtTest {
    var availableTests: seq<nat>
    var selectedTest: nat
    var srts: seq<SrtItem>
    var timer: nat
    var testStarted: bool
    var testComplete: bool
    var finalCues: nat

    function State(): SrtState
      reads this
    {
      SrtState(availableTests, selectedTest, srts, timer, testStarted, testComplete, finalCues)
    }

    constructor()
      ensures State() == Initial()
    {
      availableTests, selectedTest, srts := [], 0, [];
      timer, testStarted, testComplete, finalCues := TestSeconds, false, false, 0;
    }

    method LoadAvailableTests(tests: seq<nat>)
      modifies this
      ensures State() == old(State()).(availableTests := tests)
    {
      availableTests := tests;
    }

    method SelectTest(testNumber: nat)
      modifies this
      ensures State() == Select(old(State()), testNumber)
    {
      selectedTest := testNumber;
      timer := TestSeconds;
      testStarted := false;
      testComplete := false;
    }

    method LoadSrts(list: seq<SrtItem>)
      modifies this
      ensures State() == Load(old(State()), list)
    {
      var srtList := list;
      if |srtList| > ItemCap {
        srtList := srtList[..ItemCap];
      }
      srts := srtList;
    }

    method StartTest()
      modifies this
      ensures State() == Start(old(State()))
    {
      testStarted := true;
    }

    /** The timer effect for one second, then the effect for the clock at 0 and its re-run. */
    method Tick()
      modifies this
      ensures State() == Step(old(State()))
    {
      if testStarted && !testComplete && timer > 0 {
        timer := timer - 1;
        if timer == 0 {
          finalCues := finalCues + 1;
          testComplete := true;
          // The completion flag changed, so the effect runs once more with the clock at 0.
          finalCues := finalCues + 1;
        }
      }
    }
  }
}
