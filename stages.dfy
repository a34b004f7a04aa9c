/**
 * The inline-style writes of TextTransitioner's animations, stage by stage: each stage is a
 * function from the style an element has to the style it has afterwards.
 */
module Stages {
  import opened Props
  import opened InlineStyle

  /** The three elements the effect reads: the container, the shown element and the
      hidden probe that renders the latest `children`. */
  datatype Element = Parent | Target | Mirror

  /** `getComputedStyle(element)[property]` at the moment of the call, supplied by the host. */
  type Measure = (Element, Property) -> string

  /** The parent's spacing: what an exit shrinks and an enter zeroes and reopens. */
  predicate Spacing(q: Property)
  {
    q == BorderWidth || q == MarginLeft || q == MarginRight || q == PaddingLeft || q == PaddingRight
  }

  /** The parent's box: what an exit pins to its measured values and later removes. */
  predicate Box(q: Property)
  {
    Spacing(q) || q == Height || q == Opacity || q == Width
  }

  /** What takes the parent out of flow. */
  predicate OutOfFlow(q: Property)
  {
    q == Position || q == PointerEvents || q == Visibility || q == ZIndex
  }

  /** The values that take the parent out of flow: absolute, no pointer events, hidden and
      stacked below. */
  function OutOfFlowValue(q: Property): Value
  {
    if q == Position then Css("absolute")
    else if q == PointerEvents then Css("none")
    else if q == Visibility then Css("hidden")
    else Css("-1")
  }

  // Each stage of the animations as a function on one inline style; its contract gives
  // the value every property has afterwards.

  /** First run with empty content: the parent out of flow and its width capped at zero. */
  function HideFirstRun(s: Style): (r: Style)
    ensures
      forall q :: r.Get(q) ==
        (if OutOfFlow(q) then OutOfFlowValue(q) else if q == MaxWidth then Css("0px") else s.Get(q))
  {
    s.Set(Position, Css("absolute")).Set(PointerEvents, Css("none")).Set(Visibility, Css("hidden"))
     .Set(MaxWidth, Css("0px")).Set(ZIndex, Css("-1"))
  }

  /** Exit start: the parent's box pinned to its computed values, with no transition. */
  function PinBox(s: Style, gcs: Measure): (r: Style)
    ensures
      forall q :: r.Get(q) ==
        (if q == Transition then Css("all 0ms") else if Box(q) then Css(gcs(Parent, q)) else s.Get(q))
  {
    s.Set(Transition, Css("all 0ms"))
     .Set(BorderWidth, Css(gcs(Parent, BorderWidth)))
     .Set(Height, Css(gcs(Parent, Height)))
     .Set(MarginLeft, Css(gcs(Parent, MarginLeft)))
     .Set(MarginRight, Css(gcs(Parent, MarginRight)))
     .Set(Opacity, Css(gcs(Parent, Opacity)))
     .Set(PaddingLeft, Css(gcs(Parent, PaddingLeft)))
     .Set(PaddingRight, Css(gcs(Parent, PaddingRight)))
     .Set(Width, Css(gcs(Parent, Width)))
  }

  /** Exit start and swap fade-out: the target fading to opacity 0 under `template`. */
  function FadeOut(s: Style, template: Template, config: Config): (r: Style)
    ensures
      forall q :: r.Get(q) ==
        (if q == Transition then Interpolated(template, config)
         else if q == Opacity then Css("0")
         else s.Get(q))
  {
    s.Set(Transition, Interpolated(template, config)).Set(Opacity, Css("0"))
  }

  /** Exit after the fade: the parent's spacing and width shrinking to zero. */
  function Shrink(s: Style, config: Config): (r: Style)
    ensures
      forall q :: r.Get(q) ==
        (if q == Transition then Interpolated(ExitParentShrink, config)
         else if Spacing(q) || q == Width then Css("0px")
         else s.Get(q))
  {
    s.Set(Transition, Interpolated(ExitParentShrink, config))
     .Set(BorderWidth, Css("0px"))
     .Set(MarginLeft, Css("0px"))
     .Set(MarginRight, Css("0px"))
     .Set(PaddingLeft, Css("0px"))
     .Set(PaddingRight, Css("0px"))
     .Set(Width, Css("0px"))
  }

  /** The parent taken out of flow. */
  function TakeOutOfFlow(s: Style): (r: Style)
    ensures forall q :: r.Get(q) == if OutOfFlow(q) then OutOfFlowValue(q) else s.Get(q)
  {
    s.Set(Position, Css("absolute")).Set(PointerEvents, Css("none"))
     .Set(Visibility, Css("hidden")).Set(ZIndex, Css("-1"))
  }

  /** Exit end, after the content is committed: the parent's box and transition removed
      (`border-width` is removed twice). */
  function RemoveBox(s: Style): (r: Style)
    ensures forall q :: r.Get(q) == if Box(q) || q == Transition then Unset else s.Get(q)
  {
    s.Remove(Transition)
     .Remove(Height)
     .Remove(BorderWidth)
     .Remove(BorderWidth)
     .Remove(MarginLeft)
     .Remove(MarginRight)
     .Remove(Opacity)
     .Remove(PaddingLeft)
     .Remove(PaddingRight)
     .Remove(Width)
  }

  /** Exit end: the target's transition, opacity and width removed. */
  function SettleTargetAfterExit(s: Style): (r: Style)
    ensures
      forall q :: r.Get(q) ==
        (if q == Transition || q == Opacity || q == Width then Unset else s.Get(q))
  {
    s.Remove(Transition).Remove(Opacity).Remove(Width)
  }

  /** Enter start: a hidden parent back in flow. Only an inline `visibility: hidden`
      counts as hidden. */
  function Reveal(s: Style): (r: Style)
    ensures
      forall q :: r.Get(q) ==
        (if OutOfFlow(q) && s.Get(Visibility) == Css("hidden") then Unset else s.Get(q))
  {
    if s.Get(Visibility) == Css("hidden")
    then s.Remove(Position).Remove(PointerEvents).Remove(Visibility).Remove(ZIndex)
    else s
  }

  /** Enter start as evidently intended: a hidden parent back in flow with every override
      of the first-run hide removed, the zero `max-width` included. */
  function RevealFully(s: Style): (r: Style)
    ensures
      forall q :: r.Get(q) ==
        (if (OutOfFlow(q) || q == MaxWidth) && s.Get(Visibility) == Css("hidden") then Unset
         else s.Get(q))
  {
    if s.Get(Visibility) == Css("hidden")
    then Reveal(s).Remove(MaxWidth)
    else s
  }

  /** Enter start: the parent's spacing and opacity zeroed with no transition. */
  function ZeroParent(s: Style): (r: Style)
    ensures
      forall q :: r.Get(q) ==
        (if q == Transition then Css("all 0ms")
         else if Spacing(q) then Css("0px")
         else if q == Opacity then Css("0")
         else s.Get(q))
  {
    s.Set(Transition, Css("all 0ms"))
     .Set(BorderWidth, Css("0px"))
     .Set(MarginLeft, Css("0px"))
     .Set(MarginRight, Css("0px"))
     .Set(PaddingLeft, Css("0px"))
     .Set(PaddingRight, Css("0px"))
     .Set(Opacity, Css("0"))
  }

  /** Enter start: the target transparent and zero wide, with no transition. */
  function ZeroTarget(s: Style): (r: Style)
    ensures
      forall q :: r.Get(q) ==
        (if q == Transition then Css("all 0ms")
         else if q == Opacity then Css("0")
         else if q == Width then Css("0px")
         else s.Get(q))
  {
    s.Set(Transition, Css("all 0ms")).Set(Opacity, Css("0")).Set(Width, Css("0px"))
  }

  /** Enter, next paint: the parent's spacing and opacity opened to their computed values. */
  function OpenParentStyle(s: Style, config: Config, gcs: Measure): (r: Style)
    ensures
      forall q :: r.Get(q) ==
        (if q == Transition then Interpolated(EnterParentOpen, config)
         else if Spacing(q) || q == Opacity then Css(gcs(Parent, q))
         else s.Get(q))
  {
    s.Set(Transition, Interpolated(EnterParentOpen, config))
     .Set(BorderWidth, Css(gcs(Parent, BorderWidth)))
     .Set(Opacity, Css(gcs(Parent, Opacity)))
     .Set(MarginLeft, Css(gcs(Parent, MarginLeft)))
     .Set(MarginRight, Css(gcs(Parent, MarginRight)))
     .Set(PaddingLeft, Css(gcs(Parent, PaddingLeft)))
     .Set(PaddingRight, Css(gcs(Parent, PaddingRight)))
  }

  /** Enter, next paint: the target sized to the mirror. */
  function OpenTargetStyle(s: Style, config: Config, gcs: Measure): (r: Style)
    ensures
      forall q :: r.Get(q) ==
        (if q == Transition then Interpolated(EnterTargetOpen, config)
         else if q == Width || q == Height then Css(gcs(Mirror, q))
         else s.Get(q))
  {
    s.Set(Transition, Interpolated(EnterTargetOpen, config))
     .Set(Width, Css(gcs(Mirror, Width)))
     .Set(Height, Css(gcs(Mirror, Height)))
  }

  /** Enter and swap: the target fading in to opacity 1. */
  function FadeIn(s: Style): (r: Style)
    ensures forall q :: r.Get(q) == if q == Opacity then Css("1") else s.Get(q)
  {
    s.Set(Opacity, Css("1"))
  }

  /** Enter end: what the enter wrote on the parent removed. */
  function SettleParentAfterEnter(s: Style): (r: Style)
    ensures
      forall q :: r.Get(q) ==
        (if Spacing(q) || q == Transition || q == Opacity then Unset else s.Get(q))
  {
    s.Remove(Transition)
     .Remove(BorderWidth)
     .Remove(Opacity)
     .Remove(MarginLeft)
     .Remove(MarginRight)
     .Remove(PaddingLeft)
     .Remove(PaddingRight)
  }

  /** Enter end: what the enter wrote on the target removed. */
  function SettleTargetAfterEnter(s: Style): (r: Style)
    ensures
      forall q :: r.Get(q) ==
        (if q == Transition || q == Opacity || q == Height || q == Width then Unset else s.Get(q))
  {
    s.Remove(Transition).Remove(Opacity).Remove(Height).Remove(Width)
  }

  /** Swap start: the target's opacity and width pinned to their computed values. */
  function PinTarget(s: Style, gcs: Measure): (r: Style)
    ensures
      forall q :: r.Get(q) ==
        (if q == Opacity || q == Width then Css(gcs(Target, q)) else s.Get(q))
  {
    s.Set(Opacity, Css(gcs(Target, Opacity))).Set(Width, Css(gcs(Target, Width)))
  }

  /** Swap after the fade: the target as wide as the mirror. */
  function Resize(s: Style, gcs: Measure): (r: Style)
    ensures forall q :: r.Get(q) == if q == Width then Css(gcs(Mirror, Width)) else s.Get(q)
  {
    s.Set(Width, Css(gcs(Mirror, Width)))
  }

  /** Swap end: the target's opacity and width removed. */
  function SettleTargetAfterSwap(s: Style): (r: Style)
    ensures forall q :: r.Get(q) == if q == Opacity || q == Width then Unset else s.Get(q)
  {
    s.Remove(Opacity).Remove(Width)
  }
}
