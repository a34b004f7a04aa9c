# TextTransitioner transition controller

TextTransitioner is a React component that shows a piece of text. When the text changes
it animates the change through inline styles. Its layout effect picks one of three
animations:
- an **exit**, when the new text is empty;
- an **enter**, when the text shown is empty;
- a **swap**, when both are non-empty and differ.

Each animation writes the inline styles of the container (the *parent*) and of the element
that shows the text (the *target*). It reads computed styles of those elements and of a
hidden *mirror*, which renders the newest text for measurement. It sequences its steps with
timeouts (`wait`) followed by a paint callback (`raf`). It commits the text it shows
(`targetChildren`) at a fixed point of each animation. When the text changes again, the
previous run's cleanup (`done`) clears its timeouts and resets both elements' style
attributes.

The model is split into these modules:
- `Children`: the `children` values, and the emptiness test `children == null || children?.length === 0`.
- `Props`: the default-prop merge and the delay a host timer applies to a duration.
- `InlineStyle`: an element's inline style, with `style.x = v`, `removeProperty` and
  `setAttribute("style", …)`.
- `Timers`: the host's timeout queue and `pending.map(clearTimeout)`.
- `Stages`: every block of style writes, as a function from one element's style to its
  next style.
- `Steps`: one effect run and each callback it leaves behind, as pure functions. It holds:
  - the branch taken;
  - the styles written;
  - whether the run commits the text;
  - what it schedules, and when each step is due;
  - the lemmas on how every animation ends and when it commits.
- `Component`: the component instance as a class. It holds the state, the inline styles,
  the registered cleanup, the timeout queue and the paint queue on a virtual clock. An
  instance runs either the effect as the source writes it (`AsWritten`) or the corrected
  effect of the two findings below (`Corrected`); its callbacks are the same in both. Its
  methods are:
  - `Render`, React rendering with new `children`;
  - `Done`, the cleanup;
  - `Effect`, the layout effect;
  - `Wait` and `Raf`;
  - `FireTimer`, the host firing a timeout, and `AdvanceTo`, time passing before the next
    change or timeout;
  - `RunFrame`, a paint running a queued callback.

  Its invariant `Valid` says that every timeout and every queued callback is due at its
  phase's offset from the start of its run. It also says that timeout ids are distinct,
  and that a timeout's id is in the registered cleanup's `pending` exactly when the
  timeout belongs to that run.

Some things follow from the code and may be surprising:
- The refs are read while rendering. The effect run at mount therefore always takes the
  "not all elements are there" exit.
- The "first render" branch runs at the first *change* of `children` after mount.
- An exit also runs for a change from `null` to `""`.
- The exit's fade transition text has no comma between its two transitions. The swap's
  has one.
- `done` overwrites the whole style attribute. So the cleanup that runs at the next change
  also removes a finished exit's out-of-flow styles, before the enter looks for them.
- A swap that runs to its end leaves the target's transition set.
- `raf` callbacks are never cancelled. When `children` change after one of an animation's
  timeouts has fired but before its paint, that callback still runs. The timeouts it
  schedules go into a `pending` array that no cleanup reads anymore, so the superseded
  animation runs to its end. For example, a change to "B" that arrives between an exit's
  fade timeout and its paint starts a swap that commits "B"; the stale exit then commits
  "" and hides the parent while `children` is still "B".

## Model

| member | source | states |
|---|---|---|
| Children.IsEmpty | src/components/TextTransitioner/TextTransitioner.tsx:52 | `children == null \|\| children?.length === 0` holds exactly for null, undefined and the empty string (also at 71 and 137) |
| Props.MergeDefaults | src/components/TextTransitioner/TextTransitioner.tsx:13-24 | fade 250, size 750 and "ease" for a prop that is left out; any prop that is passed wins, even one passed as undefined |
| Props.Delay | src/components/TextTransitioner/TextTransitioner.tsx:252-256 | a timeout waits for the duration given when that is non-negative, and not at all when it is negative or undefined |
| InlineStyle.Style.Set | src/components/TextTransitioner/TextTransitioner.tsx:53-57 | `style.x = v` leaves the attribute to be rebuilt from the declarations |
| InlineStyle.Style.SetGet | src/components/TextTransitioner/TextTransitioner.tsx:53-57 | after `style.x = v`, x reads v and every other property reads as before |
| InlineStyle.Style.Remove | src/components/TextTransitioner/TextTransitioner.tsx:117-129 | `removeProperty` leaves the attribute text as it is |
| InlineStyle.Style.RemoveGet | src/components/TextTransitioner/TextTransitioner.tsx:117-129 | after `removeProperty(x)`, x reads as unset and every other property reads as before |
| InlineStyle.Overwrite | src/components/TextTransitioner/TextTransitioner.tsx:247-248 | after `setAttribute("style", text)` with a text that holds no declaration, every property reads as unset and the attribute is that text |
| Stages.HideFirstRun | src/components/TextTransitioner/TextTransitioner.tsx:53-57 | the parent ends absolute, without pointer events, hidden, at z-index -1 and with max-width 0px; every other property is kept |
| Stages.PinBox | src/components/TextTransitioner/TextTransitioner.tsx:73-81 | the parent's transition is "all 0ms" and each box property holds its computed value; nothing else changes |
| Stages.FadeOut | src/components/TextTransitioner/TextTransitioner.tsx:84-87 | the target gets the fade transition and opacity 0; nothing else changes (also used for the swap's fade, 217-220) |
| Stages.Shrink | src/components/TextTransitioner/TextTransitioner.tsx:92-104 | the parent gets the shrink transition, and its spacing and width become 0px; nothing else changes |
| Stages.TakeOutOfFlow | src/components/TextTransitioner/TextTransitioner.tsx:108-111 | the parent's four out-of-flow properties take their values; nothing else changes |
| Stages.RemoveBox | src/components/TextTransitioner/TextTransitioner.tsx:117-126 | the parent's transition and box properties read as unset; nothing else changes |
| Stages.SettleTargetAfterExit | src/components/TextTransitioner/TextTransitioner.tsx:127-129 | the target's transition, opacity and width read as unset; nothing else changes |
| Stages.Reveal | src/components/TextTransitioner/TextTransitioner.tsx:139-144 | as written: when the inline visibility is "hidden", the four out-of-flow properties read as unset; otherwise nothing changes |
| Stages.RevealFully | src/components/TextTransitioner/TextTransitioner.tsx:139-144 | corrected: when the inline visibility is "hidden", max-width is unset as well |
| Stages.ZeroParent | src/components/TextTransitioner/TextTransitioner.tsx:147-153 | the parent's transition is "all 0ms", its spacing 0px and its opacity 0; nothing else changes |
| Stages.ZeroTarget | src/components/TextTransitioner/TextTransitioner.tsx:155-157 | the target's transition is "all 0ms", its opacity 0 and its width 0px; nothing else changes |
| Stages.OpenParentStyle | src/components/TextTransitioner/TextTransitioner.tsx:163-175 | the parent gets the open transition, and its spacing and opacity take their computed values; nothing else changes |
| Stages.OpenTargetStyle | src/components/TextTransitioner/TextTransitioner.tsx:178-183 | the target gets the open transition, and the mirror's computed width and height; nothing else changes |
| Stages.FadeIn | src/components/TextTransitioner/TextTransitioner.tsx:187 | the target's opacity is 1; nothing else changes (also line 231) |
| Stages.SettleParentAfterEnter | src/components/TextTransitioner/TextTransitioner.tsx:191-197 | the parent's transition, spacing and opacity read as unset; nothing else changes |
| Stages.SettleTargetAfterEnter | src/components/TextTransitioner/TextTransitioner.tsx:198-201 | the target's transition, opacity, height and width read as unset; nothing else changes |
| Stages.PinTarget | src/components/TextTransitioner/TextTransitioner.tsx:212-213 | the target's opacity and width take their computed values; nothing else changes |
| Stages.Resize | src/components/TextTransitioner/TextTransitioner.tsx:224 | the target's width is the mirror's computed width; nothing else changes |
| Stages.SettleTargetAfterSwap | src/components/TextTransitioner/TextTransitioner.tsx:235-236 | the target's opacity and width read as unset; nothing else changes |
| Timers.Surviving | src/components/TextTransitioner/TextTransitioner.tsx:246 | a timer survives clearing exactly when its id is not among the cleared ids |
| Timers.SurvivingNone | src/components/TextTransitioner/TextTransitioner.tsx:246 | clearing no id leaves the queue as it was |
| Timers.SurvivingTwice | src/components/TextTransitioner/TextTransitioner.tsx:246 | clearing two batches of ids in turn is clearing both at once |
| Timers.SurvivingDistinct | src/components/TextTransitioner/TextTransitioner.tsx:246 | clearing timeouts keeps their ids distinct |
| Timers.ClearAll | src/components/TextTransitioner/TextTransitioner.tsx:246 | clearing the pending ids one by one leaves exactly the timers whose id is not pending |
| Steps.SelectBranch | src/components/TextTransitioner/TextTransitioner.tsx:44-137 | one condition per branch, each stated as an if-and-only-if: bail without the elements; hide on a first run with empty children; no change when children equal the shown text; exit when children become empty; enter when the shown text is empty; swap otherwise |
| Steps.EffectControl | src/components/TextTransitioner/TextTransitioner.tsx:50-215 | corrected: only an enter and a first-run hide commit during the run (the source's hide at 50-59 does not); exactly the branches that return `done` schedule a callback, due at that callback's offset |
| Steps.EffectControlAsWritten | src/components/TextTransitioner/TextTransitioner.tsx:50-215 | as written, only the enter commits during the run (159), not the first-run hide (50-59); it schedules what the corrected version schedules |
| Steps.EffectStyles | src/components/TextTransitioner/TextTransitioner.tsx:53-213 | corrected: the enter reveals with `RevealFully`; only the first-run hide, the exit and the enter write on the parent; only the exit, the enter and the swap write on the target |
| Steps.EffectStylesAsWritten | src/components/TextTransitioner/TextTransitioner.tsx:53-213 | as written: the same writes as the corrected effect, except that the enter leaves the parent's max-width as it was |
| Steps.PhaseControl | src/components/TextTransitioner/TextTransitioner.tsx:89-239 | exactly the exit's hide and the swap's resize commit; each `wait` is due at the next phase's offset; every animation ends |
| Steps.PhaseStyles | src/components/TextTransitioner/TextTransitioner.tsx:92-236 | the swap's callbacks and the enter's fade-in leave the parent alone; the exit's shrink leaves the target alone |
| Steps.CommitTimes | src/components/TextTransitioner/TextTransitioner.tsx:113-227 | an enter commits at once and never again; an exit commits fade+size after the run; a swap commits fade after it; the corrected first-run hide commits at once and schedules nothing; a bail or an unchanged run never commits |
| Steps.PinThenShrink | src/components/TextTransitioner/TextTransitioner.tsx:73-104 | after the exit's first two parent writes, the spacing and width are 0px, the rest of the box is measured, and everything else is kept |
| Steps.HideThenRemoveBox | src/components/TextTransitioner/TextTransitioner.tsx:108-126 | after the exit's last parent writes, the parent is out of flow with its box and transition unset |
| Steps.ExitEnd | src/components/TextTransitioner/TextTransitioner.tsx:71-131 | an exit that runs to its end leaves the parent out of flow, with box and transition unset, and the target without transition, opacity and width; nothing else changes, whatever the computed styles |
| Steps.EnterPhasesEnd | src/components/TextTransitioner/TextTransitioner.tsx:161-202 | the enter's callbacks, run to their end from any start, remove what they write and keep everything else |
| Steps.EnterEnd | src/components/TextTransitioner/TextTransitioner.tsx:137-202 | corrected: an enter that runs to its end removes what it wrote on both elements; a parent it revealed is back in flow with no width cap |
| Steps.EnterEndAsWritten | src/components/TextTransitioner/TextTransitioner.tsx:137-202 | as written: an enter that runs to its end removes what it wrote on both elements; a parent it revealed is back in flow and keeps the max-width it had |
| Steps.SwapEnd | src/components/TextTransitioner/TextTransitioner.tsx:211-240 | a swap that runs to its end leaves the parent untouched, and the target without opacity and width but with the fade transition still set |
| Steps.CappedAfterFirstRunHide | src/components/TextTransitioner/TextTransitioner.tsx:53-202 | as written, after a first-run hide and an enter run to its end, the parent is back in flow but keeps max-width 0px |
| Steps.RevealKeepsWidthCap | src/components/TextTransitioner/TextTransitioner.tsx:139-202 | as written, an enter from a hidden parent takes it back in flow and keeps its max-width |
| Steps.EnterAfterFirstRunHide | src/components/TextTransitioner/TextTransitioner.tsx:53-202 | corrected: after a first-run hide and an enter run to its end, the parent keeps nothing of the hide |
| Steps.StaysHiddenAsWritten | src/components/TextTransitioner/TextTransitioner.tsx:50-65 | as written, a change to "" and back to the shown text hides the parent, then finds no change, and the parent stays hidden |
| Steps.ShownAgainAfterFirstRunHide | src/components/TextTransitioner/TextTransitioner.tsx:50-65 | corrected: the change back is an enter, and once it ends the parent is in flow with no width cap |
| Component.Transitioner.constructor | src/components/TextTransitioner/TextTransitioner.tsx:28-31 | mounting shows the initial children, with no run yet, no timers, no paint callbacks and empty inline styles, running the chosen version of the effect |
| Component.Transitioner.Wait | src/components/TextTransitioner/TextTransitioner.tsx:252-256 | appends a timeout with a fresh id, due after the delay; the id goes into the `pending` of the callback's run only while that run's cleanup is registered |
| Component.Transitioner.Raf | src/components/TextTransitioner/TextTransitioner.tsx:285 | queues the callback for the next paint and records no id |
| Component.Transitioner.Schedule | src/components/TextTransitioner/TextTransitioner.tsx:89-234 | a step's `wait` becomes a timeout and its `raf` a paint callback, each due at its phase's offset |
| Component.Transitioner.Done | src/components/TextTransitioner/TextTransitioner.tsx:245-249 | the registered cleanup clears exactly its pending timeouts: a timeout survives exactly when it belongs to another run; it overwrites both style attributes; with no cleanup registered nothing changes |
| Component.Transitioner.Render | src/components/TextTransitioner/TextTransitioner.tsx:257 | the effect runs on the first render and afterwards exactly when children differ from the last run's; a rerun numbers a new run, keeps the queued paint callbacks and leaves no timeout of the superseded run |
| Component.Transitioner.Rerun | src/components/TextTransitioner/TextTransitioner.tsx:42-257 | the cleanup, then the effect: the branch is `SelectBranch`'s; the styles are the version's effect applied to the reset styles (or to the old ones when no cleanup was registered); the commit, the new cleanup, the paint queue and the timeouts (the survivors of the cleanup plus the new run's first one) are the version's; the new run starts now; no timeout of the superseded run survives |
| Component.Transitioner.Begin | src/components/TextTransitioner/TextTransitioner.tsx:44-60 | a run starts now, `firstRender` is set once the elements are there, the branch is `SelectBranch`'s and the styles are those of the instance's version: `EffectStylesAsWritten` for the source, `EffectStyles` corrected |
| Component.Transitioner.Launch | src/components/TextTransitioner/TextTransitioner.tsx:68-242 | the run commits and schedules what the instance's version says (`EffectControlAsWritten` for the source, `EffectControl` corrected), and registers `done` exactly for the exit, the enter and the swap, holding the exit's first timeout |
| Component.Transitioner.Effect | src/components/TextTransitioner/TextTransitioner.tsx:42-257 | the new state is the branch's styles, commit, cleanup and schedule in the instance's version, and the timing invariant holds |
| Component.Transitioner.AdvanceTo | src/components/TextTransitioner/TextTransitioner.tsx:252-257 | the clock moves to any time up to the next due timeout, when no paint callback is queued, so that a change of `children` can arrive at that time |
| Component.Transitioner.FireTimer | src/components/TextTransitioner/TextTransitioner.tsx:254 | the earliest timeout fires at its due time, which is never in the past, and its callback waits for the next paint |
| Component.Transitioner.RunFrame | src/components/TextTransitioner/TextTransitioner.tsx:89-239 | a paint runs the first queued callback at its phase's offset; the shown text changes only at an exit's hide (fade+size after the run) or a swap's resize (fade after it); a `wait` of the run whose cleanup is registered adds its id to that cleanup's `pending`, and the cleanup is otherwise unchanged |
| Component.Transitioner.Paint | src/components/TextTransitioner/TextTransitioner.tsx:92-236 | the paint takes the first queued callback and writes that phase's styles |
| Component.Transitioner.Continue | src/components/TextTransitioner/TextTransitioner.tsx:106-234 | the callback commits and schedules what `PhaseControl` says; the shown text changes only at the exit's hide or the swap's resize; a `wait` of the run whose cleanup is registered adds its id to that cleanup's `pending`, and the cleanup is otherwise unchanged |
| Component.StaysHiddenScenario | src/components/TextTransitioner/TextTransitioner.tsx:44-65 | an instance running the source's effect, mounted with "Short", then changed to "" and back to "Short": "Short" stays shown and the parent stays hidden |
| Component.ShownAgainScenario | src/components/TextTransitioner/TextTransitioner.tsx:44-160 | the same changes on an instance running the corrected effect: the change back is an enter, and the parent is no longer hidden |

## Left out

- React itself is not modelled: rendering, JSX, the styled `TargetDiv` and `MirrorDiv` (259-279), and the `childProps` passed to both.
- `Render` takes a `mounted` flag for whether the refs read while rendering were set (34-40). The `useMemo` that finds the parent is not modelled.
- Unmounting, which also runs the registered cleanup, is not modelled. Neither is React's double invocation of effects in development.
- Layout is not modelled. `getComputedStyle` is a parameter (`Measure`) supplied by the host for each step. The end-of-animation lemmas hold for any single measure.
- Timeouts and paints run on a virtual clock. A paint takes no time: every queued paint callback runs before the clock moves on (`FireTimer` and `AdvanceTo` require the paint queue to be empty). The clock does not move while a paint callback is queued. A change of `children` can arrive at any time, also before a queued paint callback runs; that callback still runs afterwards, since `done` does not cancel paint callbacks.
- Props.Delay: a duration that is not an integer, that is NaN, or that exceeds the host's 32-bit timer range is not modelled.
- The transition and attribute texts built from the props are opaque values, not CSS text. Whether a browser accepts them is not modelled.
- Inline styles start empty at mount. Only the properties the component writes are tracked by name. Any other inline property is kept unchanged by every stage.
- Component.Transitioner.Render: its contract does not restate the styles, commit and schedule of a rerun. Those are stated by `Rerun`, which `Render` calls when `children` change.

## Findings

| source | as written | input that shows it | evidently intended | confidence | as-written member | corrected member |
|---|---|---|---|---|---|---|
| src/components/TextTransitioner/TextTransitioner.tsx:50-59 | the first-run hide hides the parent but does not commit `targetChildren`, unlike every other branch, which ends with the new text shown | mount with "Short", change `children` to "" (the first run past the ref check: the parent is hidden and "Short" stays shown), then back to "Short": the run finds no change and the parent stays hidden | the hide commits the empty content, so that the change back is an enter that reveals the parent | medium, not executed | Steps.EffectControlAsWritten, Steps.StaysHiddenAsWritten, Component.StaysHiddenScenario | Steps.EffectControl, Steps.ShownAgainAfterFirstRunHide, Component.ShownAgainScenario |
| src/components/TextTransitioner/TextTransitioner.tsx:139-144 | the enter's reveal removes position, pointer-events, visibility and z-index, but not the `max-width: 0px` the first-run hide set (56) | mount with `null`, change to "" (first-run hide), then to "a": the enter runs to its end and the parent keeps `max-width: 0px`, so the target is clipped once its width is removed | the reveal removes every override of the hide, max-width included | medium, not executed | Stages.Reveal, Steps.EffectStylesAsWritten, Steps.EnterEndAsWritten, Steps.CappedAfterFirstRunHide | Stages.RevealFully, Steps.EffectStyles, Steps.EnterEnd, Steps.EnterAfterFirstRunHide |
