# Welcome site: the welcome loader and the projects listing, modelled in Dafny

This is a model of the two pieces of logic in a personal portfolio site.

- **The welcome loader** (`WelcomeLoader`) shows 15 greetings one after another, one every
  1200 ms dwell tick. The effect is meant to set `isComplete` once the index runs past the
  last greeting and to call `onComplete` 500 ms later; as written, the render at that index
  fails first (see "## Findings"), so that branch is never reached. Module `Welcome` (`welcome_loader.dfy`) models it in two layers:
  - `Loader`, `Event` and `Next` form a pure transition system. They hold the component's
    state (`currentIndex`, `isComplete`) and what React and the timers keep for it: a pending
    dwell timer, pending exit timers, whether an effect run is due, how many times
    `onComplete` has run, and whether the component is mounted.
  - The class `WelcomeLoader` holds the same state as fields. It has one method per event,
    and each method is proved to make exactly the transition that `Next` describes.

  Timers are events: `Tick` is the dwell timer firing and `ExitFire` is the exit timer
  firing. A tick is followed by a render before the effect runs again (`effectDue`), so the
  render with `currentIndex == 15` and `isComplete == false` is part of the model.
  A render that throws is never committed, so no effect runs for it. `Enabled` therefore
  takes a `Build`: `AsWritten` renders with `Render`, which fails at index 15, and
  `Guarded` renders with the corrected `GuardedRender`. The class follows `AsWritten`.
- **The projects page** (`ProjectsPage`) computes the data behind the page. Module
  `ProjectsPage` (`projects_page.dfy`) models these steps:
  - one view-counter key per project;
  - the fold of the fetched counters into a slug-to-count map;
  - the three featured `find`s;
  - the two `filter`s;
  - the in-place date `sort`, as an insertion sort on an array;
  - the `slice(0, 2)` / `slice(2)` split.

  The project records and the fetched counters are inputs. A project has a slug, a
  published flag and an optional integer timestamp.

`wrappers.dfy` holds the `Option` type. It stands for JavaScript's `undefined`/`null` and
for `??`.

The model follows the code as written, also where a clean sequencer would behave differently:

- The progress bar reaches 15/15 while the last greeting is still shown (index 14), not only
  after the exit begins.
- The index does reach 15 in a render, and that render fails. Nothing but an unmount can
  follow, and `onComplete` is never called (`Welcome.OnCompleteNeverCalled`).

Two properties of the effect only show once the render is guarded (`Guarded`), because only
then is the completion branch reached:

- An exit timer that is already scheduled is not cancelled on unmount.
- A new `onComplete` after completion schedules a second exit timer.

## Model

| member | source | states |
|---|---|---|
| `Welcome.Next` | app/components/welcome-loader.tsx:32-46 | The transitions: effect run (the cleanup of the previous run, then the effect body), dwell tick, exit-timer firing, new `onComplete`, and unmount. `Enabled` adds that the effect and a new `onComplete` happen only when the current render does not fail. |
| `Welcome.AfterEffect` | app/components/welcome-loader.tsx:33-43 | The effect body: past the last greeting it sets `isComplete` and adds an exit timer. Otherwise it schedules the dwell timer. |
| `Welcome.Render` | app/components/welcome-loader.tsx:48-52 | The render as written. It shows nothing iff `isComplete`. It fails iff the component is not complete and `currentIndex >= N`. Otherwise it shows greeting `currentIndex` as "Language i+1 of N", with numerator `i+1` in 1..N, equal to N exactly at index N-1. |
| `Welcome.GuardedRender` | app/components/welcome-loader.tsx:48-52 | The corrected render never fails and shows nothing iff the component is complete or the index is past the end. Wherever the as-written render does not fail, the two agree. |
| `Welcome.InitialState` | app/components/welcome-loader.tsx:29-30 | The initial state has `currentIndex == 0` and `!isComplete`. It satisfies the invariant and shows the first greeting as 1 of N. No timer is pending, so the events possible first are exactly the effect, a new `onComplete` and an unmount. |
| `Welcome.InvPreserved` | app/components/welcome-loader.tsx:32-46 | Every scheduled event preserves the invariant. The invariant includes: `currentIndex <= N`; a pending dwell tick only below N; `isComplete` only at N; and a mounted, incomplete component always has a tick pending or an effect due. |
| `Welcome.TickAdvances` | app/components/welcome-loader.tsx:41-43 | A tick happens only below N and before completion. It raises `currentIndex` by exactly 1 (to at most N) and leaves `isComplete` and the `onComplete` count unchanged. |
| `Welcome.NoTickPastEnd` | app/components/welcome-loader.tsx:33-43 | No dwell tick is pending once `currentIndex >= N`. |
| `Welcome.CompletionBranch` | app/components/welcome-loader.tsx:33-38 | When the effect body runs at `currentIndex >= N`, it sets `isComplete` and schedules one more exit timer. It leaves no dwell timer and does not change the index. As written, the effect never runs there (`Welcome.CrashIsStuck`). |
| `Welcome.CrashIsStuck` | app/components/welcome-loader.tsx:33-52 | As written, in a state whose render fails, the only possible event is an unmount: the effect for that render does not run, a new `onComplete` re-renders and fails again, and no timer is pending. |
| `Welcome.CompletesOnlyAtEnd` | app/components/welcome-loader.tsx:33-34 | `isComplete` becomes true only through an effect run, and only at index N. |
| `Welcome.CompleteStaysHidden` | app/components/welcome-loader.tsx:50-52 | Once complete, the render is empty and stays empty after any further event. |
| `Welcome.ProgressNonDecreasing` | app/components/welcome-loader.tsx:78 | No event lowers `currentIndex`. Between two rendered greetings the progress numerator never decreases. |
| `Welcome.CleanupKeepsExitTimers` | app/components/welcome-loader.tsx:35-45 | Unmounting cancels the dwell timer only. Exit timers stay scheduled and can still fire. |
| `Welcome.TicksAreConsecutive` | app/components/welcome-loader.tsx:33-43 | For either build, in any feasible run from a state satisfying the invariant, the ticks show consecutive indices, each once, from the start index to the index reached. The invariant holds at the end. |
| `Welcome.EachGreetingOnceInOrder` | app/components/welcome-loader.tsx:33-43 | For either build, from the initial state, ticks show greetings 0, 1, … in order, each once, and at most N of them. Once complete, exactly 0 .. N-1 have been shown. |
| `Welcome.AsWrittenStaysIncomplete` | app/components/welcome-loader.tsx:33-52 | As written, every feasible run from an incomplete state satisfying the invariant stays incomplete, with no exit timer scheduled and `onComplete` never called. |
| `Welcome.OnCompleteNeverCalled` | app/components/welcome-loader.tsx:33-52 | As written, no run from mount ever completes or calls `onComplete`. |
| `Welcome.FeasibleAppend` | app/components/welcome-loader.tsx:32-46 | A run of two concatenated event sequences is feasible iff the second is feasible from where the first ends, and it ends where the second ends. |
| `Welcome.ScheduleReaches` | app/components/welcome-loader.tsx:41-43 | For either build, after k undisturbed rounds of "effect, tick" (k ≤ N), the index is k, nothing is complete, and the effect is due. |
| `Welcome.OutOfBoundsRenderReachable` | app/components/welcome-loader.tsx:48-96 | After N rounds the state is `currentIndex == N`, `!isComplete`. The as-written render then fails, and only an unmount can follow. The guarded render shows nothing, and its effect can run. |
| `Welcome.ExitFiresAfterUnmount` | app/components/welcome-loader.tsx:35-38 | With the guarded render, a run that completes and then unmounts still calls `onComplete` once after the unmount. As written, that run is impossible. |
| `Welcome.OnCompleteCanFireTwice` | app/components/welcome-loader.tsx:33-46 | With the guarded render, a run that completes and then receives a new `onComplete` calls `onComplete` twice. As written, that run is impossible. |
| `Welcome.UnmountBeforeCompletionIsFinal` | app/components/welcome-loader.tsx:45 | An unmount before the completion branch leaves nothing scheduled and `onComplete` uncalled. |
| `Welcome.WelcomeLoader.constructor` | app/components/welcome-loader.tsx:29-30 | Mounting yields the initial state: index 0, not complete, effect due. |
| `Welcome.WelcomeLoader.Cleanup` | app/components/welcome-loader.tsx:45 | Clears the dwell timer only. |
| `Welcome.WelcomeLoader.Effect` | app/components/welcome-loader.tsx:33-43 | Performs the effect body, as `AfterEffect` of the old state. |
| `Welcome.WelcomeLoader.RunEffect` | app/components/welcome-loader.tsx:32-46 | Only after a render that did not fail: cleanup and then effect, the `Next` transition. It keeps the invariant and says which branch was taken. |
| `Welcome.WelcomeLoader.Tick` | app/components/welcome-loader.tsx:41-43 | `currentIndex` goes up by exactly 1, stays at most N, and `isComplete` is unchanged. |
| `Welcome.WelcomeLoader.ExitFire` | app/components/welcome-loader.tsx:35-37 | `onComplete` runs: the count goes up by 1, and the component is complete. |
| `Welcome.WelcomeLoader.OnCompleteChanged` | app/components/welcome-loader.tsx:46 | Only when the re-render does not fail: a new callback re-runs cleanup and effect at the same index. |
| `Welcome.WelcomeLoader.Unmount` | app/components/welcome-loader.tsx:45 | The last cleanup: the dwell timer is cleared, and the exit timers are kept. |
| `Welcome.WelcomeLoader.View` | app/components/welcome-loader.tsx:48-121 | Nothing is rendered once complete. A rendered greeting is the one at `currentIndex`. |
| `ProjectsPage.ViewKey` | app/projects/page.tsx:15 | `["pageviews", "projects", slug].join(":")` is `"pageviews:projects:" + slug`. |
| `ProjectsPage.SlugOfKey` | app/projects/page.tsx:15 | A key carries a slug iff it starts with the prefix, and it is then the prefix plus that slug. |
| `ProjectsPage.KeyRoundTrip` | app/projects/page.tsx:15 | The slug reads back from its key, and two slugs share a key iff they are equal. |
| `ProjectsPage.ViewKeys` | app/projects/page.tsx:14-16 | There is one key per project, in `allProjects` order, and key i reads back as project i's slug. |
| `ProjectsPage.BuildViews` | app/projects/page.tsx:17-20 | The map's keys are exactly the projects' slugs. For each index whose slug does not recur later, the map holds `fetched[i] ?? 0`, so the later index wins. Both hold for ordinary slugs; the slug `__proto__` is listed under "## Left out". |
| `ProjectsPage.LastWinsStep` | app/projects/page.tsx:18 | One `acc[slug] = v ?? 0` step keeps "each slug holds the count of its last occurrence so far". |
| `ProjectsPage.SlugsOfPrefix` | app/projects/page.tsx:17-20 | The slugs of the first i+1 projects are those of the first i plus slug i. |
| `ProjectsPage.LastIndex` | app/projects/page.tsx:17-20 | For a slug that some project has, the index of the last project with that slug: the index whose counter the fold keeps. |
| `ProjectsPage.CountShown` | app/projects/page.tsx:62 | Given a map with the keys and last-wins values `BuildViews` promises, `views[slug] ?? 0` for a project's slug is the counter fetched at that slug's last index, or 0 when that counter is absent. |
| `ProjectsPage.FindIndex` | app/projects/page.tsx:22-24 | Returns the first index whose slug matches, or none iff no project has that slug. |
| `ProjectsPage.Find` | app/projects/page.tsx:22-24 | `find` succeeds iff some project has the slug. It then returns the first project of `allProjects` with that slug. |
| `ProjectsPage.Filter` | app/projects/page.tsx:26-32 | `filter` keeps exactly the elements that pass, each as many times as in the input. |
| `ProjectsPage.Candidates` | app/projects/page.tsx:25-32 | The two filters keep exactly the published projects outside the three featured slugs, with multiplicities. |
| `ProjectsPage.Compare` | app/projects/page.tsx:34-36 | The comparator is defined (not NaN) iff both projects have a date. It is positive iff the second is newer. |
| `ProjectsPage.DatedPermutation` | app/projects/page.tsx:33-37 | Reordering does not change whether every project has a date. |
| `ProjectsPage.SwapDown` | app/projects/page.tsx:33-37 | Exchanging two neighbours is a permutation. |
| `ProjectsPage.InsertAt` | app/projects/page.tsx:33-37 | One insertion pass is a permutation and leaves the elements after position i unchanged. If all projects are dated and the prefix was newest first, the prefix is newest first one element further. |
| `ProjectsPage.SortNewestFirst` | app/projects/page.tsx:33-37 | The sort is a permutation of its input. When every project has a date, the result is in non-increasing date order. |
| `ProjectsPage.Slice` | app/projects/page.tsx:138 | `slice` with non-negative bounds clamped to the length: length `min(end,n) - start` when non-empty, with element i equal to `s[start + i]`. |
| `ProjectsPage.SplitAtTwo` | app/projects/page.tsx:199-201 | `slice(0,2) + slice(2)` is the whole list. The first part has `min(2, n)` elements. The second is non-empty iff `n > 2`. |
| `ProjectsPage.SortedListing` | app/projects/page.tsx:25-37 | `sorted` comes from `allProjects`, is published, avoids the three featured slugs, holds each listed project as often as `allProjects` does, and is newest first when all are dated. |
| `ProjectsPage.BuildPage` | app/projects/page.tsx:13-37 | The whole data pipeline. `featured`, `top2` and `top3` are the first projects with their slugs. `sorted` has the properties above. The two sections concatenate back to `sorted`, the first has `min(2, n)` entries, and the remaining section shows iff it is non-empty. It passes one counter key per project, key i being `"pageviews:projects:"` followed by project i's slug. The map's keys are all slugs. The count shown for `featured`, for `top2` and for every listed project (lines 62, 102, 146, 209) is the counter fetched at that slug's last index, or 0. |

## Left out

- JSX, styling, framer-motion animations and the loading dots are left out: they are presentation only.
- `app/projects/article.tsx` and `app/components/card.tsx` are left out: they are presentation only.
- The counter store (`Redis.fromEnv()`, `redis.mget`) is network I/O. Its result is an input: one optional count per project, aligned with the keys.
- The content pipeline that yields `allProjects` is external. Its records are an input, reduced to slug, published flag and date. Titles and descriptions are not modelled.
- `Intl.NumberFormat`, `Intl.DateTimeFormat`, date-string parsing and `toISOString` are library formatting. Dates are integer timestamps, and a missing date stands for the NaN time. A date string that fails to parse, or lies outside the JavaScript date range, would also give NaN; the model does not capture that.
- Real timer durations, React's batching and scheduling, StrictMode double effects and `revalidate = 60` are not modelled. Durations are named constants only, and timers are events.
- The progress bar's floating-point width is kept as the integer pair (position, total).
- `ProjectsPage.SortNewestFirst`: when every project is dated the comparator is consistent, and `Array.prototype.sort` must then be stable. The result is then date descending, with ties in input order. The model's insertion sort computes that order, but its contract promises only a permutation in newest-first order; stability is not stated. When some project is undated the comparator is inconsistent and the engine's order is implementation-defined, so nothing about the order is promised then.
- `ProjectsPage.BuildViews`: the accumulator is a plain object `{}`, and the model treats it as an ordinary map. For a project whose slug is `__proto__`, `acc["__proto__"] = v ?? 0` calls the inherited prototype setter, which ignores a number, so no such key is stored. `views["__proto__"] ?? 0` then yields `Object.prototype`, which the number format shows as NaN. The model, and the key-set and shown-count promises of `ProjectsPage.BuildViews`, `ProjectsPage.CountShown` and `ProjectsPage.BuildPage`, hold for ordinary slugs only.
- `ProjectsPage.BuildPage`: requires the three featured slugs to be present. The `!` after each `find` is a type-level assertion only. A missing `unkey` or `planetfall` project always fails, at the first read of `featured.slug` or `top2.slug`. That read is in the second filter (page.tsx:29-30) when some published project reaches that test, and otherwise in the markup (page.tsx:56, :96). A missing `highstorm` project does not always fail: `top3.slug` is read only in the second filter, after two `&&` tests, and the markup never reads `top3`. So the source still renders when every published project has slug `unkey` or `planetfall`, or none is published. The requires also excludes that case. The fetched list must have one entry per key, as the counter store's contract gives. A call with zero keys is not modelled.
- `Welcome.WelcomeLoader.View`: uses the as-written render, including the failing case, as the component has it. `Welcome.GuardedRender` is the corrected render. It is used by the `Guarded` build of the transition system, not by the class.

## Findings

| source | as written | input that shows it | evidently intended | confidence | as-written member | corrected member |
|---|---|---|---|---|---|---|
| app/components/welcome-loader.tsx:48-96 | The render reads `welcomeTranslations[currentIndex]` and then its `.text`, and the only guard is `isComplete`. | The render right after the 15th dwell tick: `currentIndex == 15`, `isComplete == false`. `.text` is read from `undefined` and the render throws. The render is not committed, so the completion effect never runs and `onComplete` is never called (`Welcome.OnCompleteNeverCalled`). | Render nothing once `currentIndex` has passed the last greeting. | high, not executed | `Welcome.OutOfBoundsRenderReachable` | `Welcome.GuardedRender` |
