/**
 * The image-response test screen: each picture is shown for 30 seconds,
 * then hidden for 240 seconds of writing; an alert marks the end of the
 * writing time, and after a one-second pause the next picture is shown. The
 * test is complete when the writing time of the last picture runs out.
 *
 * Time advances in ticks of one second. The component's effects that run
 * without a timer (switching to writing when the viewing time reaches 0,
 * the alert when the writing time reaches 0) happen within the tick that
 * caused them. The alert sound is counted, not played.
 */
module TatSession {
  import Machine
  import opened Listings
  import opened TimeFormat

  datatype Phase = Viewing | Writing

  datatype TatState = TatState(
    images: seq<TatImage>,
    loaded: bool,
    index: nat,
    phase: Phase,
    viewTimer: nat,
    writeTimer: nat,
    complete: bool,
    advancePending: bool,  // the one-second pause before the next picture is running
    alerts: nat)

  const ViewSeconds: nat := 30
  const WriteSeconds: nat := 240
  const PictureCount: nat := 12

  /** The state when the screen opens: first picture, viewing, nothing loaded yet. */
  function Initial(): TatState {
    TatState([], false, 0, Viewing, ViewSeconds, WriteSeconds, false, false, 0)
  }

  /** What holds in every state the screen can reach. */
  predicate Inv(s: TatState) {
    && |s.images| <= PictureCount
    && (s.index == 0 || s.index < |s.images|)
    && s.viewTimer <= ViewSeconds && s.writeTimer <= WriteSeconds
    && (s.phase == Viewing ==> s.viewTimer > 0)
    && (s.advancePending ==> s.phase == Writing && s.writeTimer == 0 && s.index + 1 < |s.images|)
    && (!s.loaded ==> s.images == [])
  }

  /** The writing-time effect once the timer reads 0: the alert, then the pause or the end of the test. */
  function WriteExpired(s: TatState): (r: TatState)
    ensures r.alerts == s.alerts + 1 && r.index == s.index && r.images == s.images
    ensures r.advancePending <==> s.advancePending || s.index + 1 < |s.images|
    ensures r.complete <==> s.complete || s.index + 1 >= |s.images|
  {
    var t := s.(alerts := s.alerts + 1);
    if s.index < |s.images| - 1 then t.(advancePending := true) else t.(complete := true)
  }

  /** One second. */
  function Step(s: TatState): TatState {
    if s.advancePending then
      s.(index := s.index + 1, phase := Viewing, viewTimer := ViewSeconds, advancePending := false)
    else if s.phase == Viewing && s.viewTimer > 0 then
      var t := s.(viewTimer := s.viewTimer - 1);
      if t.viewTimer == 0 then t.(phase := Writing, writeTimer := WriteSeconds) else t
    else if s.phase == Writing && s.writeTimer > 0 then
      var t := s.(writeTimer := s.writeTimer - 1);
      if t.writeTimer == 0 then WriteExpired(t) else t
    else s
  }

  /** The state after `k` seconds. */
  function Steps(s: TatState, k: nat): TatState {
    Machine.Steps(Step, s, k)
  }

  /**
   * The pictures used: twelve from a random order of the list when it has at
   * least twelve, otherwise the list as served. `shuffled` is the random
   * order, which the model takes as given.
   */
  function SelectImages(list: seq<TatImage>, shuffled: seq<TatImage>): (r: seq<TatImage>)
    requires multiset(shuffled) == multiset(list)
  {
    assert |shuffled| == |multiset(shuffled)| == |list|;
    if |list| >= PictureCount then shuffled[..PictureCount] else list
  }

  /**
   * Exactly twelve pictures when there are at least twelve, each taken from
   * a different position of the list; a shorter list unchanged.
   */
  lemma SelectImagesContents(list: seq<TatImage>, shuffled: seq<TatImage>)
    requires multiset(shuffled) == multiset(list)
    ensures |list| >= PictureCount ==> |SelectImages(list, shuffled)| == PictureCount
    ensures |list| < PictureCount ==> SelectImages(list, shuffled) == list
    ensures multiset(SelectImages(list, shuffled)) <= multiset(list)
  {
    if |list| >= PictureCount {
      assert |shuffled| == |list| by {
        assert |multiset(shuffled)| == |shuffled|;
      }
      assert shuffled == shuffled[..PictureCount] + shuffled[PictureCount..];
    }
  }

  /**
   * The list arrives. When its length differs from the one before and the
   * writing time already ran out, the writing-time effect runs again.
   */
  function Load(s: TatState, list: seq<TatImage>, shuffled: seq<TatImage>): TatState
    requires multiset(shuffled) == multiset(list)
  {
    var images := SelectImages(list, shuffled);
    var t := s.(images := images, loaded := true);
    if |images| != |s.images| && s.phase == Writing && s.writeTimer == 0 then WriteExpired(t) else t
  }

  lemma InitialInv()
    ensures Inv(Initial()) && Fresh(Initial()) && !Initial().complete
  {
  }

  lemma StepInv(s: TatState)
    requires Inv(s)
    ensures Inv(Step(s))
  {
  }

  /** The list is loaded once, when the screen opens. */
  lemma LoadInv(s: TatState, list: seq<TatImage>, shuffled: seq<TatImage>)
    requires Inv(s) && !s.loaded && multiset(shuffled) == multiset(list)
    ensures Inv(Load(s, list, shuffled))
  {
    SelectImagesContents(list, shuffled);
    assert |list| < PictureCount ==> |SelectImages(list, shuffled)| < PictureCount;
  }

  /**
   * The picture number only moves up by one, and only to a picture that
   * exists; the test, once complete, stays complete; it becomes complete
   * only when the writing time of the last picture runs out.
   */
  lemma StepProgress(s: TatState)
    requires Inv(s)
    ensures Step(s).index == s.index || (Step(s).index == s.index + 1 && Step(s).index < |s.images|)
    ensures s.complete ==> Step(s).complete
    ensures Step(s).complete && !s.complete ==>
      s.index + 1 >= |s.images| && s.phase == Writing && s.writeTimer == 1 && Step(s).alerts == s.alerts + 1
  {
  }

  lemma LoadKeepsComplete(s: TatState, list: seq<TatImage>, shuffled: seq<TatImage>)
    requires multiset(shuffled) == multiset(list)
    ensures s.complete ==> Load(s, list, shuffled).complete
    ensures Load(s, list, shuffled).index == s.index
  {
  }

  /** Before the viewing time runs out, each tick takes one second off it and nothing else. */
  lemma {:induction false} ViewingTicks(s: TatState, k: nat)
    requires s.phase == Viewing && !s.advancePending && k < s.viewTimer
    ensures Steps(s, k) == s.(viewTimer := s.viewTimer - k)
    decreases k
  {
    if k > 0 {
      ViewingTicks(Step(s), k - 1);
    }
  }

  /** The picture is hidden and the writing time starts exactly when the viewing time runs out. */
  lemma ViewingEnds(s: TatState)
    requires s.phase == Viewing && !s.advancePending && s.viewTimer > 0
    ensures Steps(s, s.viewTimer) == s.(viewTimer := 0, phase := Writing, writeTimer := WriteSeconds)
  {
    ViewingTicks(s, s.viewTimer - 1);
    Machine.StepsAdd(Step, s, s.viewTimer - 1, 1);
  }

  lemma {:induction false} WritingTicks(s: TatState, k: nat)
    requires s.phase == Writing && !s.advancePending && k < s.writeTimer
    ensures Steps(s, k) == s.(writeTimer := s.writeTimer - k)
    decreases k
  {
    if k > 0 {
      WritingTicks(Step(s), k - 1);
    }
  }

  /** The alert comes exactly when the writing time runs out. */
  lemma WritingEnds(s: TatState)
    requires s.phase == Writing && !s.advancePending && s.writeTimer > 0
    ensures Steps(s, s.writeTimer) == WriteExpired(s.(writeTimer := 0))
  {
    WritingTicks(s, s.writeTimer - 1);
    Machine.StepsAdd(Step, s, s.writeTimer - 1, 1);
  }

  /** Running `k = a + b` seconds is running `a` seconds, to `mid`, then `b` more. */
  lemma StepsThrough(s: TatState, k: nat, a: nat, b: nat, mid: TatState)
    requires k == a + b && Steps(s, a) == mid
    ensures Steps(s, k) == Steps(mid, b)
  {
    Machine.StepsAdd(Step, s, a, b);
  }

  /** A picture just shown: viewing with the full viewing time. */
  predicate Fresh(s: TatState) {
    s.phase == Viewing && s.viewTimer == ViewSeconds && !s.advancePending
  }

  /** One picture takes 30 + 240 seconds from being shown to its alert. */
  lemma PictureCycle(s: TatState)
    requires Fresh(s)
    ensures Steps(s, ViewSeconds + WriteSeconds) ==
      WriteExpired(s.(phase := Writing, viewTimer := 0, writeTimer := 0))
  {
    ViewingEnds(s);
    var w := s.(viewTimer := 0, phase := Writing, writeTimer := WriteSeconds);
    WritingEnds(w);
    Machine.StepsAdd(Step, s, ViewSeconds, WriteSeconds);
  }

  /** A picture that is not the last is followed, 271 seconds after it was shown, by the next one. */
  lemma NextPicture(s: TatState)
    requires Fresh(s) && s.index + 1 < |s.images|
    ensures Steps(s, ViewSeconds + WriteSeconds + 1) ==
      s.(index := s.index + 1, writeTimer := 0, alerts := s.alerts + 1)
  {
    PictureCycle(s);
    Machine.StepsAdd(Step, s, ViewSeconds + WriteSeconds, 1);
  }

  /**
   * From a freshly shown picture, the test completes 271 seconds per
   * remaining picture less one (the last picture has no pause), on the last
   * picture, with one alert per picture.
   */
  lemma RunCompletes(s: TatState)
    requires Fresh(s) && s.index < |s.images|
    ensures var n := |s.images| - s.index;
      Steps(s, 271 * n - 1) ==
        s.(index := |s.images| - 1, phase := Writing, viewTimer := 0, writeTimer := 0,
           complete := true, alerts := s.alerts + n)
  {
    PicturesLeft(s, |s.images| - s.index);
  }

  /** `RunCompletes` by induction on the number `n` of pictures left. */
  lemma {:induction false} PicturesLeft(s: TatState, n: nat)
    requires Fresh(s) && n > 0 && n == |s.images| - s.index
    ensures Steps(s, 271 * n - 1) ==
      s.(index := |s.images| - 1, phase := Writing, viewTimer := 0, writeTimer := 0,
         complete := true, alerts := s.alerts + n)
    decreases n
  {
    if n > 1 {
      NextPicture(s);
      var next := s.(index := s.index + 1, writeTimer := 0, alerts := s.alerts + 1);
      PicturesLeft(next, n - 1);
      StepsThrough(s, 271 * n - 1, 271, 271 * (n - 1) - 1, next);
    } else {
      LastPicture(s);
      assert Steps(s, 271 * n - 1) == Steps(s, 270);
    }
  }

  /** The last picture completes the test when its writing time runs out, with its alert. */
  lemma LastPicture(s: TatState)
    requires Fresh(s) && s.index + 1 == |s.images|
    ensures Steps(s, 270) ==
      s.(phase := Writing, viewTimer := 0, writeTimer := 0, complete := true, alerts := s.alerts + 1)
  {
    PictureCycle(s);
  }

  /**
   * Without pictures the timers run all the same: the test completes 270
   * seconds after the first picture would have been shown, and not before,
   * with one alert.
   */
  lemma EmptyRunCompletes(s: TatState)
    requires Fresh(s) && s.images == [] && !s.complete
    ensures !Steps(s, 269).complete
    ensures Steps(s, 270) == s.(phase := Writing, viewTimer := 0, writeTimer := 0, complete := true, alerts := s.alerts + 1)
  {
    PictureCycle(s);
    ViewingEnds(s);
    var w := s.(viewTimer := 0, phase := Writing, writeTimer := WriteSeconds);
    WritingTicks(w, WriteSeconds - 1);
    Machine.StepsAdd(Step, s, ViewSeconds, WriteSeconds - 1);
  }

  // ---------------------------------------------------------------------
  // What the screen shows
  // ---------------------------------------------------------------------

  datatype TatScreen =
    | CompleteScreen(imageCount: nat)
    | NoImagesScreen
    | ViewingScreen(number: nat, of: nat, clock: string, path: string)
    | WritingScreen(number: nat, of: nat, clock: string)

  /**
   * The completion screen comes before the no-pictures screen; otherwise
   * the current picture with the viewing clock, or its writing clock.
   */
  function Screen(s: TatState): (r: TatScreen)
    requires Inv(s)
    ensures r.CompleteScreen? <==> s.complete
    ensures r.NoImagesScreen? <==> !s.complete && s.images == []
    ensures r.ViewingScreen? <==> !s.complete && s.images != [] && s.phase == Viewing
    ensures r.CompleteScreen? ==> r.imageCount == |s.images|
    ensures r.ViewingScreen? ==>
      && s.index < |s.images| && r.number == s.index + 1 && r.of == |s.images|
      && r.clock == FormatTime(s.viewTimer) && r.path == s.images[s.index].path
    ensures r.WritingScreen? ==>
      && s.index < |s.images| && r.number == s.index + 1 && r.of == |s.images|
      && r.clock == FormatTime(s.writeTimer)
  {
    if s.complete then CompleteScreen(|s.images|)
    else if s.images == [] then NoImagesScreen
    else if s.phase == Viewing then
      ViewingScreen(s.index + 1, |s.images|, FormatTime(s.viewTimer), s.images[s.index].path)
    else WritingScreen(s.index + 1, |s.images|, FormatTime(s.writeTimer))
  }

  /**
   * A test run without pictures shows the no-pictures screen until it
   * completes, and then the completion screen for zero pictures.
   */
  lemma EmptyRunScreen(s: TatState)
    requires Inv(s) && Fresh(s) && s.images == [] && !s.complete
    ensures Screen(s) == NoImagesScreen
    ensures Inv(Steps(s, 270)) && Screen(Steps(s, 270)) == CompleteScreen(0)
  {
    EmptyRunCompletes(s);
  }

  /** The first picture is shown with "0:30" on the clock, and the writing time starts at "4:00". */
  lemma ScreenClocks(s: TatState)
    requires Inv(s) && !s.complete && s.images != [] && s.phase == Viewing && s.viewTimer == ViewSeconds
    ensures Screen(s) == ViewingScreen(s.index + 1, |s.images|, "0:30", s.images[s.index].path)
    ensures Screen(s.(phase := Writing, writeTimer := WriteSeconds)) ==
      WritingScreen(s.index + 1, |s.images|, "4:00")
  {
    FormatTimeOfViewingPeriod();
    FormatTimeOfWritingPeriod();
  }

  // ---------------------------------------------------------------------
  // The component
  // ---------------------------------------------------------------------

  class TatTest {
    var images: seq<TatImage>
    var loaded: bool
    var currentIndex: nat
    var phase: Phase
    var viewTimer: nat
    var writeTimer: nat
    var testComplete: bool
    var advancePending: bool
    var alerts: nat

    function State(): TatState
      reads this
    {
      TatState(images, loaded, currentIndex, phase, viewTimer, writeTimer, testComplete, advancePending, alerts)
    }

    constructor()
      ensures State() == Initial()
    {
      images, loaded, currentIndex := [], false, 0;
      phase, viewTimer, writeTimer := Viewing, ViewSeconds, WriteSeconds;
      testComplete, advancePending, alerts := false, false, 0;
    }

    /** The timer effects for one second. */
    method Tick()
      modifies this
      ensures State() == Step(old(State()))
    {
      if advancePending {
        currentIndex := currentIndex + 1;
        phase := Viewing;
        viewTimer := ViewSeconds;
        advancePending := false;
      } else if phase == Viewing && viewTimer > 0 {
        viewTimer := viewTimer - 1;
        if viewTimer == 0 {
          phase := Writing;
          writeTimer := WriteSeconds;
        }
      } else if phase == Writing && writeTimer > 0 {
        writeTimer := writeTimer - 1;
        if writeTimer == 0 {
          WritingTimeUp();
        }
      }
    }

    method WritingTimeUp()
      modifies this
      ensures State() == WriteExpired(old(State()))
    {
      alerts := alerts + 1;
      if currentIndex < |images| - 1 {
        advancePending := true;
      } else {
        testComplete := true;
      }
    }

    /** `loadImages` on mount; `shuffled` is the random order of the served list. */
    method LoadImages(list: seq<TatImage>, shuffled: seq<TatImage>)
      requires multiset(shuffled) == multiset(list)
      modifies this
      ensures State() == Load(old(State()), list, shuffled)
    {
      var imageList := list;
      assert |shuffled| == |multiset(shuffled)| == |list|;
      if |imageList| >= PictureCount {
        imageList := shuffled[..PictureCount];
      }
      var lengthChanged := |imageList| != |images|;
      images := imageList;
      loaded := true;
      if lengthChanged && phase == Writing && writeTimer == 0 {
        WritingTimeUp();
      }
    }
  }
}
