/**
 * The welcome splash (`WelcomeLoader`): it shows a fixed list of greetings one
 * after another, one per dwell tick, then marks itself complete and calls
 * `onComplete` after an exit delay.
 *
 * The React component is modelled in two layers:
 *  - `Loader`, `Event` and `Next`: the component's state together with the
 *    timers and effect bookkeeping that React keeps for it, as a pure
 *    transition system. The lemmas about the sequence of greetings live here.
 *  - class `WelcomeLoader`: the same state as mutable fields, with one method
 *    per event, each proved to perform exactly the transition `Next` describes.
 *
 * Timers are abstract events: the 1200 ms dwell timer firing is `Tick`, the
 * 500 ms exit timer firing is `ExitFire`.
 */
module Welcome {

  datatype Translation = Translation(text: string, lang: string, code: string)

  /** The greetings, in display order. */
  const Translations: seq<Translation> := [
    Translation("Welcome", "English", "en"),
    Translation("Bienvenido", "Spanish", "es"),
    Translation("Bienvenue", "French", "fr"),
    Translation("Willkommen", "German", "de"),
    Translation("Benvenuto", "Italian", "it"),
    Translation("Bem-vindo", "Portuguese", "pt"),
    Translation("いらっしゃいませ", "Japanese", "ja"),
    Translation("欢迎", "Chinese", "zh"),
    Translation("환영합니다", "Korean", "ko"),
    Translation("مرحبا", "Arabic", "ar"),
    Translation("Добро пожаловать", "Russian", "ru"),
    Translation("Welkom", "Dutch", "nl"),
    Translation(" добродошлица", "Serbian", "sr"),
    Translation("ยินดีต้อนรับ", "Thai", "th"),
    Translation("Välkommen", "Swedish", "sv")
  ]

  /** Number of greetings. */
  const N: nat := |Translations|

  /** How long each greeting stays, and how long after completion `onComplete` runs (ms). */
  const DwellMs: nat := 1200
  const ExitDelayMs: nat := 500

  // ---------------------------------------------------------------------------
  // State and events
  // ---------------------------------------------------------------------------

  /**
   * The component's two state variables, `currentIndex` and `isComplete`, plus
   * what the runtime holds on its behalf:
   *  - effectDue: a render with a changed `currentIndex` has happened and the
   *    effect has not yet run for it;
   *  - dwellPending: the dwell timer set by the last effect is still scheduled;
   *  - exitPending: exit timers scheduled and not yet fired (never cancelled);
   *  - completions: how many times `onComplete` has been called;
   *  - mounted: the host still shows the component.
   */
  datatype Loader = Loader(
    currentIndex: nat,
    isComplete: bool,
    effectDue: bool,
    dwellPending: bool,
    exitPending: nat,
    completions: nat,
    mounted: bool)

  datatype Event =
    | RunEffect          // React runs the effect after a render whose `currentIndex` changed
    | Tick               // the dwell timer fires: `setCurrentIndex(prev => prev + 1)`
    | ExitFire           // an exit timer fires: `onComplete()`
    | OnCompleteChanged  // the parent passes a new `onComplete`: cleanup, then the effect again
    | Unmount            // the host removes the component: the last cleanup runs

  /** The state right after the first render: the effect has not run yet. */
  function Init(): Loader {
    Loader(0, false, true, false, 0, 0, true)
  }

  /** The cleanup returned by the dwell branch: `clearTimeout(timer)`. */
  function AfterCleanup(s: Loader): Loader {
    s.(dwellPending := false)
  }

  /**
   * The effect body. Past the last greeting it sets `isComplete` and schedules
   * the exit timer, returning no cleanup; otherwise it schedules the dwell timer.
   */
  function AfterEffect(s: Loader): Loader {
    if s.currentIndex >= N then
      s.(isComplete := true, exitPending := s.exitPending + 1, effectDue := false)
    else
      s.(dwellPending := true, effectDue := false)
  }

  /** What holds in every state reachable from `Init()`. */
  predicate Inv(s: Loader) {
    && s.currentIndex <= N
    && (s.isComplete ==> s.currentIndex == N)
    && (s.dwellPending ==> s.currentIndex < N && s.mounted && !s.effectDue && !s.isComplete)
    && (s.exitPending + s.completions > 0 ==> s.isComplete)
    && (!s.mounted ==> !s.effectDue)
    && (s.mounted && !s.isComplete ==> s.dwellPending || s.effectDue)
  }

  // ---------------------------------------------------------------------------
  // Rendering
  // ---------------------------------------------------------------------------

  datatype View =
    | Hidden                                                // `return null`
    | Shown(greeting: Translation, position: nat, total: nat) // "Language position of total", bar at position/total
    | Crash                                                 // TypeError: `.text` read from `undefined`

  /**
   * The render as written: `welcomeTranslations[currentIndex]` is read before
   * the `isComplete` guard, and nothing guards `currentIndex < N`.
   */
  function Render(s: Loader): (v: View)
    ensures v.Hidden? <==> s.isComplete
    ensures v.Crash? <==> !s.isComplete && s.currentIndex >= N
    ensures v.Shown? ==> s.currentIndex < N && v.greeting == Translations[s.currentIndex]
    ensures v.Shown? ==> v.total == N && 1 <= v.position <= N && v.position == s.currentIndex + 1
    ensures v.Shown? ==> (v.position == N <==> s.currentIndex == N - 1)
  {
    if s.isComplete then Hidden
    else if s.currentIndex < N then Shown(Translations[s.currentIndex], s.currentIndex + 1, N)
    else Crash
  }

  /**
   * The render with the guard the component evidently intends: nothing is
   * shown once the index has run past the last greeting.
   */
  function GuardedRender(s: Loader): (v: View)
    ensures !v.Crash?
    ensures v.Hidden? <==> s.isComplete || s.currentIndex >= N
    ensures !Render(s).Crash? ==> v == Render(s)
  {
    if s.isComplete || s.currentIndex >= N then Hidden
    else Shown(Translations[s.currentIndex], s.currentIndex + 1, N)
  }

  /** The component as written, or with the guard `GuardedRender` adds. */
  datatype Build = AsWritten | Guarded

  function RenderOf(b: Build, s: Loader): View {
    match b
    case AsWritten => Render(s)
    case Guarded => GuardedRender(s)
  }

  // ---------------------------------------------------------------------------
  // Transitions
  // ---------------------------------------------------------------------------

  /**
   * What the runtime has lined up: the effect after a render, a pending timer,
   * a host that still shows the component. `Next` is the step each one makes.
   */
  predicate Scheduled(s: Loader, e: Event) {
    match e
    case RunEffect => s.mounted && s.effectDue
    case Tick => s.dwellPending
    case ExitFire => s.exitPending > 0
    case OnCompleteChanged => s.mounted
    case Unmount => s.mounted
  }

  function Next(s: Loader, e: Event): Loader
    requires Scheduled(s, e)
  {
    match e
    case RunEffect => AfterEffect(AfterCleanup(s))
    case OnCompleteChanged => AfterEffect(AfterCleanup(s))
    case Tick => s.(currentIndex := s.currentIndex + 1, dwellPending := false, effectDue := true)
    case ExitFire => s.(exitPending := s.exitPending - 1, completions := s.completions + 1)
    case Unmount => AfterCleanup(s).(mounted := false, effectDue := false)
  }

  /**
   * Whether an event can happen in the component built with render `b`. The
   * effect runs only after its render has been committed, and a new
   * `onComplete` re-renders before it re-runs the effect; a render that throws
   * is never committed, so neither of these happens in a state whose render
   * fails.
   */
  predicate Enabled(b: Build, s: Loader, e: Event) {
    && Scheduled(s, e)
    && ((e == RunEffect || e == OnCompleteChanged) ==> !RenderOf(b, s).Crash?)
  }

  // ---------------------------------------------------------------------------
  // One-step properties
  // ---------------------------------------------------------------------------

  /** The first render is done; no timer is pending, so no timer can fire first. */
  lemma InitialState()
    ensures Inv(Init())
    ensures Init().currentIndex == 0 && !Init().isComplete
    ensures Render(Init()) == Shown(Translations[0], 1, N)
    ensures forall b: Build, e: Event :: Enabled(b, Init(), e) <==> e != Tick && e != ExitFire
  {
  }

  lemma InvPreserved(s: Loader, e: Event)
    requires Inv(s) && Scheduled(s, e)
    ensures Inv(Next(s, e))
  {
  }

  /** A dwell tick moves to the next greeting and touches nothing else of the component's state. */
  lemma TickAdvances(s: Loader)
    requires Inv(s) && Scheduled(s, Tick)
    ensures s.currentIndex < N && !s.isComplete
    ensures Next(s, Tick).currentIndex == s.currentIndex + 1 <= N
    ensures Next(s, Tick).isComplete == s.isComplete
    ensures Next(s, Tick).completions == s.completions
  {
  }

  /** No dwell timer is ever pending once the index has reached the end. */
  lemma NoTickPastEnd(s: Loader)
    requires Inv(s) && s.currentIndex >= N
    ensures !Scheduled(s, Tick)
  {
  }

  /**
   * The completion branch of the effect body: when the effect runs past the
   * last greeting it marks the component complete and schedules one more exit
   * timer, and leaves no dwell timer behind, so the index never changes again.
   * In the component as written the effect never gets to run there
   * (`CrashIsStuck`).
   */
  lemma CompletionBranch(s: Loader, e: Event)
    requires Inv(s) && Scheduled(s, e) && (e == RunEffect || e == OnCompleteChanged)
    requires s.currentIndex >= N
    ensures Next(s, e).isComplete
    ensures Next(s, e).exitPending == s.exitPending + 1
    ensures !Next(s, e).dwellPending
    ensures Next(s, e).currentIndex == s.currentIndex
    ensures Next(s, e).completions == s.completions
  {
  }

  /** `isComplete` becomes true only through the completion branch, at index N. */
  lemma CompletesOnlyAtEnd(s: Loader, e: Event)
    requires Inv(s) && Scheduled(s, e)
    requires !s.isComplete && Next(s, e).isComplete
    ensures s.currentIndex == N
    ensures e == RunEffect || e == OnCompleteChanged
  {
  }

  /** Once complete, the component renders nothing, whatever happens next. */
  lemma CompleteStaysHidden(s: Loader, e: Event)
    requires Inv(s) && Scheduled(s, e) && s.isComplete
    ensures Render(s) == Hidden
    ensures Next(s, e).isComplete && Render(Next(s, e)) == Hidden
  {
  }

  /** The progress numerator never goes back. */
  lemma ProgressNonDecreasing(s: Loader, e: Event)
    requires Inv(s) && Scheduled(s, e)
    ensures Next(s, e).currentIndex >= s.currentIndex
    ensures Render(s).Shown? && Render(Next(s, e)).Shown? ==>
              Render(s).position <= Render(Next(s, e)).position
  {
  }

  /**
   * Unmounting cancels only the dwell timer: exit timers already scheduled stay
   * scheduled, so `onComplete` can still be called afterwards.
   */
  lemma CleanupKeepsExitTimers(s: Loader)
    requires Inv(s) && Scheduled(s, Unmount)
    ensures !Next(s, Unmount).dwellPending
    ensures Next(s, Unmount).exitPending == s.exitPending
    ensures s.exitPending > 0 ==> Scheduled(Next(s, Unmount), ExitFire)
  {
  }

  /**
   * In the component as written, once the render fails only the unmount can
   * happen: the effect for that render never runs and no timer is pending.
   */
  lemma CrashIsStuck(s: Loader, e: Event)
    requires Inv(s) && Render(s).Crash?
    ensures Enabled(AsWritten, s, e) <==> e == Unmount && s.mounted
  {
  }

  // ---------------------------------------------------------------------------
  // Runs: sequences of events
  // ---------------------------------------------------------------------------

  /** Every event of `es` is possible when it happens, starting from `s`. */
  predicate Feasible(b: Build, s: Loader, es: seq<Event>)
    decreases |es|
  {
    |es| == 0 || (Enabled(b, s, es[0]) && Feasible(b, Next(s, es[0]), es[1..]))
  }

  function Final(b: Build, s: Loader, es: seq<Event>): Loader
    requires Feasible(b, s, es)
    decreases |es|
  {
    if |es| == 0 then s else Final(b, Next(s, es[0]), es[1..])
  }

  /** The index shown at each dwell tick of the run, in order. */
  function Ticks(b: Build, s: Loader, es: seq<Event>): seq<nat>
    requires Feasible(b, s, es)
    decreases |es|
  {
    if |es| == 0 then []
    else if es[0] == Tick then [s.currentIndex] + Ticks(b, Next(s, es[0]), es[1..])
    else Ticks(b, Next(s, es[0]), es[1..])
  }

  /** The consecutive indices lo, lo + 1, ..., hi - 1. */
  function Range(lo: nat, hi: nat): (r: seq<nat>)
    requires lo <= hi
    ensures |r| == hi - lo
    ensures forall i :: 0 <= i < |r| ==> r[i] == lo + i
    decreases hi - lo
  {
    if lo == hi then [] else [lo] + Range(lo + 1, hi)
  }

  /**
   * Along any run, the dwell ticks fire at consecutive indices, from the
   * starting index up to the index reached, each exactly once.
   */
  lemma {:induction false} TicksAreConsecutive(b: Build, s: Loader, es: seq<Event>)
    requires Inv(s) && Feasible(b, s, es)
    ensures Inv(Final(b, s, es))
    ensures s.currentIndex <= Final(b, s, es).currentIndex
    ensures Ticks(b, s, es) == Range(s.currentIndex, Final(b, s, es).currentIndex)
    decreases |es|
  {
    if |es| > 0 {
      var t := Next(s, es[0]);
      InvPreserved(s, es[0]);
      TicksAreConsecutive(b, t, es[1..]);
      if es[0] == Tick {
        assert t.currentIndex == s.currentIndex + 1;
      } else {
        assert t.currentIndex == s.currentIndex;
      }
    }
  }

  /**
   * From the initial state, every run shows greetings 0, 1, ... in order, each
   * once; when the component has completed, exactly the N greetings
   * 0 .. N-1 have been shown.
   */
  lemma EachGreetingOnceInOrder(b: Build, es: seq<Event>)
    requires Feasible(b, Init(), es)
    ensures Ticks(b, Init(), es) == Range(0, Final(b, Init(), es).currentIndex)
    ensures |Ticks(b, Init(), es)| <= N
    ensures Final(b, Init(), es).isComplete ==> Ticks(b, Init(), es) == Range(0, N)
  {
    TicksAreConsecutive(b, Init(), es);
  }

  /**
   * The component as written never completes: from a state that has not
   * completed, every run leaves it incomplete, with no exit timer scheduled
   * and `onComplete` never called.
   */
  lemma {:induction false} AsWrittenStaysIncomplete(s: Loader, es: seq<Event>)
    requires Inv(s) && !s.isComplete && Feasible(AsWritten, s, es)
    ensures !Final(AsWritten, s, es).isComplete
    ensures Final(AsWritten, s, es).exitPending == 0 && Final(AsWritten, s, es).completions == 0
    decreases |es|
  {
    if |es| > 0 {
      InvPreserved(s, es[0]);
      AsWrittenStaysIncomplete(Next(s, es[0]), es[1..]);
    }
  }

  /** As written, `onComplete` is never called, whatever the host and the timers do. */
  lemma OnCompleteNeverCalled(es: seq<Event>)
    requires Feasible(AsWritten, Init(), es)
    ensures !Final(AsWritten, Init(), es).isComplete
    ensures Final(AsWritten, Init(), es).completions == 0
  {
    AsWrittenStaysIncomplete(Init(), es);
  }

  /** `Feasible` and `Final` over a concatenation of two runs. */
  lemma {:induction false} FeasibleAppend(b: Build, s: Loader, xs: seq<Event>, ys: seq<Event>)
    requires Feasible(b, s, xs)
    ensures Feasible(b, s, xs + ys) <==> Feasible(b, Final(b, s, xs), ys)
    ensures Feasible(b, s, xs + ys) ==> Final(b, s, xs + ys) == Final(b, Final(b, s, xs), ys)
    decreases |xs|
  {
    if |xs| > 0 {
      assert (xs + ys)[0] == xs[0];
      assert (xs + ys)[1..] == xs[1..] + ys;
      FeasibleAppend(b, Next(s, xs[0]), xs[1..], ys);
    } else {
      assert xs + ys == ys;
    }
  }

  /** The undisturbed run: k rounds of "effect, then tick". */
  function Schedule(k: nat): seq<Event> {
    if k == 0 then [] else Schedule(k - 1) + [RunEffect, Tick]
  }

  /** After k undisturbed rounds the index is k and the effect for it is due. */
  lemma {:induction false} ScheduleReaches(b: Build, k: nat)
    requires k <= N
    ensures Feasible(b, Init(), Schedule(k))
    ensures Final(b, Init(), Schedule(k)) == Loader(k, false, true, false, 0, 0, true)
  {
    if k > 0 {
      ScheduleReaches(b, k - 1);
      var s := Loader(k - 1, false, true, false, 0, 0, true);
      var round := [RunEffect, Tick];
      assert Feasible(b, s, round) && Final(b, s, round) == Loader(k, false, true, false, 0, 0, true) by {
        assert !RenderOf(b, s).Crash?;
        var t := Next(s, RunEffect);
        assert t == Loader(k - 1, false, false, true, 0, 0, true);
        assert round[1..] == [Tick];
        assert [Tick][1..] == [];
      }
      FeasibleAppend(b, Init(), Schedule(k - 1), round);
    }
  }

  /**
   * After the last dwell tick there is a render with `currentIndex == N` and
   * `isComplete == false`; as written it reads past the end of the greeting
   * list and fails, so its effect never runs and only an unmount can follow.
   * With the guard the render is empty and the effect runs.
   */
  lemma OutOfBoundsRenderReachable()
    ensures Feasible(AsWritten, Init(), Schedule(N))
    ensures Final(AsWritten, Init(), Schedule(N)).currentIndex == N
    ensures !Final(AsWritten, Init(), Schedule(N)).isComplete
    ensures Render(Final(AsWritten, Init(), Schedule(N))) == Crash
    ensures forall e :: Enabled(AsWritten, Final(AsWritten, Init(), Schedule(N)), e) <==> e == Unmount
    ensures Feasible(Guarded, Init(), Schedule(N))
    ensures GuardedRender(Final(Guarded, Init(), Schedule(N))) == Hidden
    ensures Enabled(Guarded, Final(Guarded, Init(), Schedule(N)), RunEffect)
  {
    ScheduleReaches(AsWritten, N);
    ScheduleReaches(Guarded, N);
  }

  /** The run that reaches completion and then unmounts. */
  function CompleteThenUnmount(): seq<Event> {
    Schedule(N) + [RunEffect, Unmount, ExitFire]
  }

  /**
   * With the guard, `onComplete` is still called after the host has unmounted
   * the component, since the exit timer is never cancelled. As written the
   * run is impossible: it stops at the failing render.
   */
  lemma ExitFiresAfterUnmount()
    ensures Feasible(Guarded, Init(), CompleteThenUnmount())
    ensures !Final(Guarded, Init(), CompleteThenUnmount()).mounted
    ensures Final(Guarded, Init(), CompleteThenUnmount()).completions == 1
    ensures !Feasible(AsWritten, Init(), CompleteThenUnmount())
  {
    var tail := [RunEffect, Unmount, ExitFire];
    ScheduleReaches(Guarded, N);
    var s := Final(Guarded, Init(), Schedule(N));
    assert Feasible(Guarded, s, tail) && Final(Guarded, s, tail) == Loader(N, true, false, false, 0, 1, false) by {
      assert tail[1..] == [Unmount, ExitFire];
      assert tail[1..][1..] == [ExitFire];
      assert [ExitFire][1..] == [];
    }
    FeasibleAppend(Guarded, Init(), Schedule(N), tail);
    ScheduleReaches(AsWritten, N);
    assert !Enabled(AsWritten, Final(AsWritten, Init(), Schedule(N)), tail[0]);
    FeasibleAppend(AsWritten, Init(), Schedule(N), tail);
  }

  /** The run that reaches completion and then receives a new `onComplete`. */
  function CompleteThenNewCallback(): seq<Event> {
    Schedule(N) + [RunEffect, OnCompleteChanged, ExitFire, ExitFire]
  }

  /**
   * With the guard, because `onComplete` is an effect dependency and the
   * completion branch cancels nothing, a new callback after completion
   * schedules a second exit timer: `onComplete` is called twice. As written
   * the run is impossible.
   */
  lemma OnCompleteCanFireTwice()
    ensures Feasible(Guarded, Init(), CompleteThenNewCallback())
    ensures Final(Guarded, Init(), CompleteThenNewCallback()).completions == 2
    ensures !Feasible(AsWritten, Init(), CompleteThenNewCallback())
  {
    var tail := [RunEffect, OnCompleteChanged, ExitFire, ExitFire];
    ScheduleReaches(Guarded, N);
    var s := Final(Guarded, Init(), Schedule(N));
    assert Feasible(Guarded, s, tail) && Final(Guarded, s, tail) == Loader(N, true, false, false, 0, 2, true) by {
      assert tail[1..] == [OnCompleteChanged, ExitFire, ExitFire];
      assert tail[1..][1..] == [ExitFire, ExitFire];
      assert tail[1..][1..][1..] == [ExitFire];
      assert [ExitFire][1..] == [];
    }
    FeasibleAppend(Guarded, Init(), Schedule(N), tail);
    ScheduleReaches(AsWritten, N);
    assert !Enabled(AsWritten, Final(AsWritten, Init(), Schedule(N)), tail[0]);
    FeasibleAppend(AsWritten, Init(), Schedule(N), tail);
  }

  /**
   * Unmounting before the completion branch has run silences the component:
   * nothing is scheduled afterwards, so `onComplete` is never called.
   */
  lemma UnmountBeforeCompletionIsFinal(s: Loader, e: Event)
    requires Inv(s) && Scheduled(s, Unmount) && !s.isComplete
    ensures Next(s, Unmount).completions == 0
    ensures !Scheduled(Next(s, Unmount), e)
  {
  }

  // ---------------------------------------------------------------------------
  // The component
  // ---------------------------------------------------------------------------

  class WelcomeLoader {
    var currentIndex: nat
    var isComplete: bool
    var effectDue: bool
    var dwellPending: bool
    var exitPending: nat
    var completions: nat
    var mounted: bool

    function State(): Loader
      reads this
    {
      Loader(currentIndex, isComplete, effectDue, dwellPending, exitPending, completions, mounted)
    }

    ghost predicate Valid()
      reads this
    {
      Inv(State())
    }

    /** Mounting: `useState(0)` and `useState(false)`, first render done, effect due. */
    constructor ()
      ensures Valid() && State() == Init()
      ensures currentIndex == 0 && !isComplete
    {
      currentIndex, isComplete := 0, false;
      effectDue, dwellPending := true, false;
      exitPending, completions := 0, 0;
      mounted := true;
    }

    /**
     * The cleanup returned by the dwell branch: clears the dwell timer only.
     * A step of `RunEffect`, `OnCompleteChanged` and `Unmount`, not an event.
     */
    method Cleanup()
      requires mounted
      modifies this
      ensures State() == AfterCleanup(old(State()))
      ensures !dwellPending && exitPending == old(exitPending)
    {
      dwellPending := false;
    }

    /**
     * The effect body, run after the previous effect's cleanup. A step of
     * `RunEffect` and `OnCompleteChanged`, not an event: between the cleanup and
     * the effect `Valid()` need not hold.
     */
    method Effect()
      requires mounted
      modifies this
      ensures State() == AfterEffect(old(State()))
      ensures currentIndex == old(currentIndex) && completions == old(completions)
    {
      if currentIndex >= |Translations| {
        isComplete := true;
        exitPending := exitPending + 1;
      } else {
        dwellPending := true;
      }
      effectDue := false;
    }

    /** React runs the effect after a committed render: cleanup, then the effect body. */
    method RunEffect()
      requires Valid() && mounted && effectDue && !Render(State()).Crash?
      modifies this
      ensures Valid() && State() == Next(old(State()), Event.RunEffect)
      ensures currentIndex == old(currentIndex)
      ensures old(currentIndex) >= N ==> isComplete && exitPending == old(exitPending) + 1 && !dwellPending
      ensures old(currentIndex) < N ==> dwellPending && isComplete == old(isComplete)
    {
      Cleanup();
      Effect();
      InvPreserved(old(State()), Event.RunEffect);
    }

    /** The dwell timer fires: `setCurrentIndex(prev => prev + 1)`. */
    method Tick()
      requires Valid() && dwellPending
      modifies this
      ensures Valid() && State() == Next(old(State()), Event.Tick)
      ensures currentIndex == old(currentIndex) + 1 <= N
      ensures isComplete == old(isComplete) && effectDue
    {
      currentIndex := currentIndex + 1;
      dwellPending := false;
      effectDue := true;
      InvPreserved(old(State()), Event.Tick);
    }

    /** An exit timer fires: `onComplete()` is called. */
    method ExitFire()
      requires Valid() && exitPending > 0
      modifies this
      ensures Valid() && State() == Next(old(State()), Event.ExitFire)
      ensures completions == old(completions) + 1 && isComplete
    {
      exitPending := exitPending - 1;
      completions := completions + 1;
      InvPreserved(old(State()), Event.ExitFire);
    }

    /** A new `onComplete` from the parent: once the re-render commits, cleanup and effect run again. */
    method OnCompleteChanged()
      requires Valid() && mounted && !Render(State()).Crash?
      modifies this
      ensures Valid() && State() == Next(old(State()), Event.OnCompleteChanged)
      ensures currentIndex == old(currentIndex)
    {
      Cleanup();
      Effect();
      InvPreserved(old(State()), Event.OnCompleteChanged);
    }

    /** The host removes the component: the current effect's cleanup runs. */
    method Unmount()
      requires Valid() && mounted
      modifies this
      ensures Valid() && State() == Next(old(State()), Event.Unmount)
      ensures !mounted && !dwellPending && exitPending == old(exitPending)
    {
      Cleanup();
      mounted := false;
      effectDue := false;
      InvPreserved(old(State()), Event.Unmount);
    }

    /** What the component renders now. */
    function View(): (v: View)
      reads this
      ensures isComplete ==> v == Hidden
      ensures v.Shown? ==> currentIndex < N && v.greeting == Translations[currentIndex]
    {
      Render(State())
    }
  }
}
