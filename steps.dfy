/**
 * One run of TextTransitioner's layout effect and each callback it leaves behind, as
 * functions from the styles and content before to the styles, the commit of the content
 * and the next callback after.
 */
module Steps {
  import opened Children
  import opened Props
  import opened InlineStyle
  import opened Stages

  /** The continuation closures of the three animations. */
  datatype Phase =
    | ExitShrink | ExitHide
    | EnterOpen | EnterFadeIn | EnterClean
    | SwapFadeOut | SwapResize | SwapFadeIn | SwapClean

  /** Which way one effect run goes. */
  datatype Branch = Bail | HideOnFirstRun | Unchanged | Exit | Enter | Swap

  /** What a step leaves scheduled: nothing, `wait(duration, fn)` or `raf(fn)`. */
  datatype Next = Nothing | After(duration: PropValue<int>, phase: Phase) | OnPaint(phase: Phase)

  /** Whether a step calls `setTargetChildren(children)`, and what it schedules. */
  datatype Control = Control(commit: bool, next: Next)

  /** The parent's and target's inline styles after a step. */
  datatype Styles = Styles(parent: Style, target: Style)

  /** Which effect the component runs: the one the source writes, or the one with the
      first-run hide committing and the enter's reveal removing the zero width cap. */
  datatype Version = AsWritten | Corrected

  /** The branch an effect run takes, from whether the three elements are there, whether
      this is the first run that got past that check, the new `children` and the shown
      `targetChildren`. */
  function SelectBranch(mounted: bool, firstRun: bool, children: Content, shown: Content): (b: Branch)
    ensures b == Bail <==> !mounted
    ensures b == HideOnFirstRun <==> mounted && firstRun && IsEmpty(children)
    ensures b == Unchanged <==> mounted && children == shown && !(firstRun && IsEmpty(children))
    ensures b == Exit <==> mounted && !firstRun && IsEmpty(children) && children != shown
    ensures b == Enter <==> mounted && !IsEmpty(children) && IsEmpty(shown)
    ensures b == Swap <==> mounted && !IsEmpty(children) && !IsEmpty(shown) && children != shown
  {
    if !mounted then Bail
    else if firstRun && IsEmpty(children) then HideOnFirstRun
    else if children == shown then Unchanged
    else if IsEmpty(children) then Exit
    else if IsEmpty(shown) then Enter
    else Swap
  }

  /** The branches that return `done` as the effect's cleanup. */
  predicate Registers(b: Branch)
  {
    b == Exit || b == Enter || b == Swap
  }

  /** How long after its effect run a phase is due: the sum of the `wait` delays before it,
      a paint taking no time. */
  function Offset(phase: Phase, config: Config): nat
  {
    var fade := Delay(config.fadeDuration);
    var size := Delay(config.sizeDuration);
    match phase
    case ExitShrink => fade
    case ExitHide => fade + size
    case EnterOpen => 0
    case EnterFadeIn => size
    case EnterClean => size + fade
    case SwapFadeOut => 0
    case SwapResize => fade
    case SwapFadeIn => fade + size
    case SwapClean => fade + size + fade
  }

  /** How many callbacks of its animation follow a phase. */
  function Rank(phase: Phase): nat
  {
    match phase
    case ExitShrink => 1
    case ExitHide => 0
    case EnterOpen => 2
    case EnterFadeIn => 1
    case EnterClean => 0
    case SwapFadeOut => 3
    case SwapResize => 2
    case SwapFadeIn => 1
    case SwapClean => 0
  }

  /** Corrected: what an effect run of each branch commits and schedules. The enter commits
      the new content during the run, and so does the first-run hide, which records the
      empty content it hides as shown (the source leaves that commit out; see
      `EffectControlAsWritten`). Every branch that returns `done` schedules a first
      callback, due at that callback's offset. */
  function EffectControl(branch: Branch, config: Config): (c: Control)
    ensures c.commit <==> branch == Enter || branch == HideOnFirstRun
    ensures Registers(branch) <==> c.next != Nothing
    ensures c.next.After? ==> branch == Exit && Offset(c.next.phase, config) == Delay(c.next.duration)
    ensures c.next.OnPaint? ==> Offset(c.next.phase, config) == 0
  {
    match branch
    case HideOnFirstRun => Control(true, Nothing)
    case Exit => Control(false, After(config.fadeDuration, ExitShrink))
    case Enter => Control(true, OnPaint(EnterOpen))
    case Swap => Control(false, OnPaint(SwapFadeOut))
    case _ => Control(false, Nothing)
  }

  /** The effect run as the source writes it: only the enter commits during the run, and
      the first-run hide schedules nothing and commits nothing. */
  function EffectControlAsWritten(branch: Branch, config: Config): (c: Control)
    ensures c.commit <==> branch == Enter
    ensures c.next == EffectControl(branch, config).next
  {
    EffectControl(branch, config).(commit := branch == Enter)
  }

  /** Corrected: what an effect run of each branch writes on parent and target, the enter
      revealing with `RevealFully` (the source's reveal is `Reveal`; see
      `EffectStylesAsWritten`). Only the first-run hide, the exit and the enter touch the
      parent, and only the exit, the enter and the swap touch the target. */
  function EffectStyles(branch: Branch, parent: Style, target: Style, config: Config, gcs: Measure): (r: Styles)
    ensures branch != HideOnFirstRun && branch != Exit && branch != Enter ==> r.parent == parent
    ensures !Registers(branch) ==> r.target == target
  {
    match branch
    case HideOnFirstRun => Styles(HideFirstRun(parent), target)
    case Exit => Styles(PinBox(parent, gcs), FadeOut(target, ExitTargetFade, config))
    case Enter => Styles(ZeroParent(RevealFully(parent)), ZeroTarget(target))
    case Swap => Styles(parent, PinTarget(target, gcs))
    case _ => Styles(parent, target)
  }

  /** The effect's writes as the source makes them: they differ from the corrected ones
      only in the enter, whose reveal leaves the parent's `max-width` as it was. */
  function EffectStylesAsWritten(branch: Branch, parent: Style, target: Style, config: Config, gcs: Measure): (r: Styles)
    ensures branch != Enter ==> r == EffectStyles(branch, parent, target, config, gcs)
    ensures r.target == EffectStyles(branch, parent, target, config, gcs).target
    ensures branch == Enter ==>
      forall q ::
        r.parent.Get(q) ==
          (if q == MaxWidth then parent.Get(MaxWidth)
           else EffectStyles(branch, parent, target, config, gcs).parent.Get(q))
  {
    if branch == Enter then Styles(ZeroParent(Reveal(parent)), ZeroTarget(target))
    else EffectStyles(branch, parent, target, config, gcs)
  }

  /** What an effect run commits and schedules in the given version. */
  function EffectControlOf(version: Version, branch: Branch, config: Config): Control
  {
    if version == Corrected then EffectControl(branch, config) else EffectControlAsWritten(branch, config)
  }

  /** What an effect run writes in the given version. */
  function EffectStylesOf(version: Version, branch: Branch, parent: Style, target: Style, config: Config, gcs: Measure): Styles
  {
    if version == Corrected then EffectStyles(branch, parent, target, config, gcs)
    else EffectStylesAsWritten(branch, parent, target, config, gcs)
  }

  /** What each callback commits and schedules. Exactly the exit's hide and the swap's
      resize commit the content; every `wait` is scheduled for the offset of the phase it
      leads to, and each animation ends. */
  function PhaseControl(phase: Phase, config: Config): (c: Control)
    ensures c.commit <==> phase == ExitHide || phase == SwapResize
    ensures !c.next.OnPaint?
    ensures c.next == Nothing <==> Rank(phase) == 0
    ensures c.next.After? ==>
      Offset(c.next.phase, config) == Offset(phase, config) + Delay(c.next.duration) &&
      Rank(c.next.phase) < Rank(phase)
  {
    match phase
    case ExitShrink => Control(false, After(config.sizeDuration, ExitHide))
    case ExitHide => Control(true, Nothing)
    case EnterOpen => Control(false, After(config.sizeDuration, EnterFadeIn))
    case EnterFadeIn => Control(false, After(config.fadeDuration, EnterClean))
    case EnterClean => Control(false, Nothing)
    case SwapFadeOut => Control(false, After(config.fadeDuration, SwapResize))
    case SwapResize => Control(true, After(config.sizeDuration, SwapFadeIn))
    case SwapFadeIn => Control(false, After(config.fadeDuration, SwapClean))
    case SwapClean => Control(false, Nothing)
  }

  /** What each callback writes on parent and target, reading computed styles from `gcs`
      on the paint it runs on. A swap never touches the parent. */
  function PhaseStyles(phase: Phase, config: Config, parent: Style, target: Style, gcs: Measure): (r: Styles)
    ensures phase in {SwapFadeOut, SwapResize, SwapFadeIn, SwapClean, EnterFadeIn} ==> r.parent == parent
    ensures phase == ExitShrink ==> r.target == target
  {
    match phase
    case ExitShrink => Styles(Shrink(parent, config), target)
    case ExitHide => Styles(RemoveBox(TakeOutOfFlow(parent)), SettleTargetAfterExit(target))
    case EnterOpen => Styles(OpenParentStyle(parent, config, gcs), OpenTargetStyle(target, config, gcs))
    case EnterFadeIn => Styles(parent, FadeIn(target))
    case EnterClean => Styles(SettleParentAfterEnter(parent), SettleTargetAfterEnter(target))
    case SwapFadeOut => Styles(parent, FadeOut(target, SwapTargetFade, config))
    case SwapResize => Styles(parent, Resize(target, gcs))
    case SwapFadeIn => Styles(parent, FadeIn(target))
    case SwapClean => Styles(parent, SettleTargetAfterSwap(target))
  }

  /** The offset from the effect run at which the callbacks from `phase` on commit the
      content, when nothing cancels them. */
  function CommitTime(phase: Phase, config: Config): Option<nat>
    decreases Rank(phase)
  {
    var c := PhaseControl(phase, config);
    if c.commit then Some(Offset(phase, config))
    else if c.next.After? then CommitTime(c.next.phase, config)
    else None
  }

  /** The styles the callbacks from `phase` on leave when nothing cancels them, with every
      computed style read from `gcs`. */
  function Finish(phase: Phase, config: Config, styles: Styles, gcs: Measure): Styles
    decreases Rank(phase)
  {
    var after := PhaseStyles(phase, config, styles.parent, styles.target, gcs);
    var c := PhaseControl(phase, config);
    if c.next.After? then Finish(c.next.phase, config, after, gcs) else after
  }

  /** When the effect commits the new content: an enter and a first-run hide at once and
      never again, an exit `fadeDuration + sizeDuration` and a swap `fadeDuration` after
      the run; a bail and an unchanged run never. */
  lemma {:induction false} CommitTimes(branch: Branch, config: Config)
    ensures var c := EffectControl(branch, config);
      var fade, size := Delay(config.fadeDuration), Delay(config.sizeDuration);
      (branch == Enter ==> c.commit && CommitTime(c.next.phase, config) == None) &&
      (branch == Exit ==> !c.commit && CommitTime(c.next.phase, config) == Some(fade + size)) &&
      (branch == Swap ==> !c.commit && CommitTime(c.next.phase, config) == Some(fade)) &&
      (branch == HideOnFirstRun ==> c.commit && c.next == Nothing) &&
      (branch == Bail || branch == Unchanged ==> !c.commit && c.next == Nothing)
  {
    if branch == Enter {
      assert CommitTime(EnterFadeIn, config) == CommitTime(EnterClean, config) == None;
    }
  }

  /** The exit's first two writes on the parent: its box pinned, then its spacing and
      width shrunk. */
  lemma PinThenShrink(parent: Style, config: Config, gcs: Measure)
    ensures var p := Shrink(PinBox(parent, gcs), config);
      forall q ::
        p.Get(q) ==
          (if q == Transition then Interpolated(ExitParentShrink, config)
           else if Spacing(q) || q == Width then Css("0px")
           else if Box(q) then Css(gcs(Parent, q))
           else parent.Get(q))
  {
  }

  /** The exit's last writes on the parent: out of flow, then its box removed. */
  lemma HideThenRemoveBox(parent: Style)
    ensures var p := RemoveBox(TakeOutOfFlow(parent));
      forall q ::
        p.Get(q) ==
          (if OutOfFlow(q) then OutOfFlowValue(q)
           else if Box(q) || q == Transition then Unset
           else parent.Get(q))
  {
  }

  /** An exit that runs to its end leaves the parent out of flow with its box and transition
      removed, and the target without transition, opacity and width; nothing else changes,
      whatever the computed styles were. */
  lemma ExitEnd(parent: Style, target: Style, config: Config, gcs: Measure)
    ensures var f := Finish(ExitShrink, config, EffectStyles(Exit, parent, target, config, gcs), gcs);
      forall q ::
        f.parent.Get(q) ==
          (if OutOfFlow(q) then OutOfFlowValue(q)
           else if Box(q) || q == Transition then Unset
           else parent.Get(q)) &&
        f.target.Get(q) ==
          (if q == Transition || q == Opacity || q == Width then Unset else target.Get(q))
  {
    var s0 := EffectStyles(Exit, parent, target, config, gcs);
    var s1 := PhaseStyles(ExitShrink, config, s0.parent, s0.target, gcs);
    assert Finish(ExitShrink, config, s0, gcs) == PhaseStyles(ExitHide, config, s1.parent, s1.target, gcs);
    PinThenShrink(parent, config, gcs);
    HideThenRemoveBox(s1.parent);
  }

  /** The enter's callbacks, run to their end from any start, remove what they write on
      parent and target and leave everything else as they found it. */
  lemma EnterPhasesEnd(s0: Styles, config: Config, gcs: Measure)
    ensures var f := Finish(EnterOpen, config, s0, gcs);
      forall q ::
        f.parent.Get(q) ==
          (if Spacing(q) || q == Transition || q == Opacity then Unset else s0.parent.Get(q)) &&
        f.target.Get(q) ==
          (if q == Transition || q == Opacity || q == Height || q == Width then Unset
           else s0.target.Get(q))
  {
    var s1 := PhaseStyles(EnterOpen, config, s0.parent, s0.target, gcs);
    var s2 := PhaseStyles(EnterFadeIn, config, s1.parent, s1.target, gcs);
    assert Finish(EnterOpen, config, s0, gcs) == Finish(EnterFadeIn, config, s1, gcs);
    assert Finish(EnterFadeIn, config, s1, gcs) == PhaseStyles(EnterClean, config, s2.parent, s2.target, gcs);
  }

  /** Corrected: an enter that runs to its end removes what it wrote on parent and target
      and leaves the rest as it was; a parent it revealed is back in flow with no width cap. */
  lemma EnterEnd(parent: Style, target: Style, config: Config, gcs: Measure)
    ensures var f := Finish(EnterOpen, config, EffectStyles(Enter, parent, target, config, gcs), gcs);
      forall q ::
        f.parent.Get(q) ==
          (if Spacing(q) || q == Transition || q == Opacity then Unset
           else if (OutOfFlow(q) || q == MaxWidth) && parent.Get(Visibility) == Css("hidden") then Unset
           else parent.Get(q)) &&
        f.target.Get(q) ==
          (if q == Transition || q == Opacity || q == Height || q == Width then Unset
           else target.Get(q))
  {
    EnterPhasesEnd(EffectStyles(Enter, parent, target, config, gcs), config, gcs);
  }

  /** As written: an enter that runs to its end removes what it wrote on parent and target
      and leaves the rest as it was; a parent it revealed is back in flow, but keeps the
      `max-width` it had. */
  lemma EnterEndAsWritten(parent: Style, target: Style, config: Config, gcs: Measure)
    ensures var f := Finish(EnterOpen, config, EffectStylesAsWritten(Enter, parent, target, config, gcs), gcs);
      forall q ::
        f.parent.Get(q) ==
          (if Spacing(q) || q == Transition || q == Opacity then Unset
           else if OutOfFlow(q) && parent.Get(Visibility) == Css("hidden") then Unset
           else parent.Get(q)) &&
        f.target.Get(q) ==
          (if q == Transition || q == Opacity || q == Height || q == Width then Unset
           else target.Get(q))
  {
    EnterPhasesEnd(EffectStylesAsWritten(Enter, parent, target, config, gcs), config, gcs);
  }

  /** A swap that runs to its end leaves the parent as it was and the target without
      opacity and width, but with the fade's transition still set. */
  lemma SwapEnd(parent: Style, target: Style, config: Config, gcs: Measure)
    ensures var f := Finish(SwapFadeOut, config, EffectStyles(Swap, parent, target, config, gcs), gcs);
      f.parent == parent &&
      forall q ::
        f.target.Get(q) ==
          (if q == Opacity || q == Width then Unset
           else if q == Transition then Interpolated(SwapTargetFade, config)
           else target.Get(q))
  {
    var s0 := EffectStyles(Swap, parent, target, config, gcs);
    var s1 := PhaseStyles(SwapFadeOut, config, s0.parent, s0.target, gcs);
    var s2 := PhaseStyles(SwapResize, config, s1.parent, s1.target, gcs);
    var s3 := PhaseStyles(SwapFadeIn, config, s2.parent, s2.target, gcs);
    assert Finish(SwapFadeOut, config, s0, gcs) == Finish(SwapResize, config, s1, gcs);
    assert Finish(SwapResize, config, s1, gcs) == Finish(SwapFadeIn, config, s2, gcs);
    assert Finish(SwapFadeIn, config, s2, gcs) == PhaseStyles(SwapClean, config, s3.parent, s3.target, gcs);
  }

  /** As written, the enter's reveal leaves the first-run hide's `max-width: 0px` on the
      parent: after an empty first run and an enter that runs to its end, the parent is back
      in flow but its width is still capped at zero. */
  lemma CappedAfterFirstRunHide(parent: Style, target: Style, config: Config, gcs: Measure)
    ensures var hidden := EffectStylesAsWritten(HideOnFirstRun, parent, target, config, gcs);
      var f := Finish(EnterOpen, config, EffectStylesAsWritten(Enter, hidden.parent, target, config, gcs), gcs);
      (forall q :: OutOfFlow(q) ==> f.parent.Get(q) == Unset) &&
      f.parent.Get(MaxWidth) == Css("0px")
  {
    var hidden := HideFirstRun(parent);
    assert EffectStylesAsWritten(HideOnFirstRun, parent, target, config, gcs).parent == hidden;
    RevealKeepsWidthCap(hidden, target, config, gcs);
  }

  /** The as-written enter, from a hidden parent, takes it back in flow and keeps its
      `max-width`. */
  lemma RevealKeepsWidthCap(hidden: Style, target: Style, config: Config, gcs: Measure)
    requires hidden.Get(Visibility) == Css("hidden")
    ensures var f := Finish(EnterOpen, config, EffectStylesAsWritten(Enter, hidden, target, config, gcs), gcs);
      (forall q :: OutOfFlow(q) ==> f.parent.Get(q) == Unset) &&
      f.parent.Get(MaxWidth) == hidden.Get(MaxWidth)
  {
    var f := Finish(EnterOpen, config, EffectStylesAsWritten(Enter, hidden, target, config, gcs), gcs);
    EnterEndAsWritten(hidden, target, config, gcs);
    assert f.parent.Get(MaxWidth) == hidden.Get(MaxWidth);
    forall q | OutOfFlow(q)
      ensures f.parent.Get(q) == Unset
    {
    }
  }

  /** With the full reveal, an enter after an empty first run leaves no trace of the hide:
      the parent ends with the inline style it had before the first run, less what the
      enter itself removes. */
  lemma EnterAfterFirstRunHide(parent: Style, target: Style, config: Config, gcs: Measure)
    ensures var hidden := EffectStyles(HideOnFirstRun, parent, target, config, gcs);
      var f := Finish(EnterOpen, config, EffectStyles(Enter, hidden.parent, target, config, gcs), gcs);
      forall q ::
        f.parent.Get(q) ==
          (if Spacing(q) || q == Transition || q == Opacity || OutOfFlow(q) || q == MaxWidth then Unset
           else parent.Get(q))
  {
    var hidden := HideFirstRun(parent);
    assert EffectStyles(HideOnFirstRun, parent, target, config, gcs).parent == hidden;
    assert hidden.Get(Visibility) == Css("hidden");
    var f := Finish(EnterOpen, config, EffectStyles(Enter, hidden, target, config, gcs), gcs);
    EnterEnd(hidden, target, config, gcs);
    forall q
      ensures f.parent.Get(q) ==
        (if Spacing(q) || q == Transition || q == Opacity || OutOfFlow(q) || q == MaxWidth then Unset
         else parent.Get(q))
    {
      assert !(OutOfFlow(q) || q == MaxWidth) ==> hidden.Get(q) == parent.Get(q);
    }
  }

  /** As written, a first change of `children` to the empty string hides the parent without
      committing it, so that a change back to the content still shown is taken for no change
      and leaves the parent hidden. */
  lemma StaysHiddenAsWritten(text: string, parent: Style, target: Style, config: Config, gcs: Measure)
    requires |text| > 0
    ensures var first := SelectBranch(true, true, Str(""), Str(text));
      var shown := if EffectControlAsWritten(first, config).commit then Str("") else Str(text);
      var second := SelectBranch(true, false, Str(text), shown);
      var hidden := EffectStylesAsWritten(first, parent, target, config, gcs).parent;
      first == HideOnFirstRun && shown == Str(text) && second == Unchanged &&
      EffectStylesAsWritten(second, hidden, target, config, gcs).parent.Get(Visibility) == Css("hidden")
  {
  }

  /** With the hide committing the empty content, the change back is an enter, which, run to
      its end, brings the parent back in flow with no width cap. */
  lemma ShownAgainAfterFirstRunHide(text: string, parent: Style, target: Style, config: Config, gcs: Measure)
    requires |text| > 0
    ensures var first := SelectBranch(true, true, Str(""), Str(text));
      var shown := if EffectControl(first, config).commit then Str("") else Str(text);
      var second := SelectBranch(true, false, Str(text), shown);
      var hidden := EffectStyles(first, parent, target, config, gcs);
      var f := Finish(EnterOpen, config, EffectStyles(second, hidden.parent, target, config, gcs), gcs);
      first == HideOnFirstRun && shown == Str("") && second == Enter &&
      forall q :: OutOfFlow(q) || q == MaxWidth ==> f.parent.Get(q) == Unset
  {
    EnterAfterFirstRunHide(parent, target, config, gcs);
  }
}
