/** The timing props of a TextTransitioner and how they are merged with their defaults. */
module Props {

  /** An optional prop: left out of the props object, present with the value undefined,
      or present with a value. */
  datatype PropValue<T> = Omitted | PassedUndefined | Given(value: T)

  /** Durations in milliseconds and the CSS timing function. */
  datatype Config = Config(
    fadeDuration: PropValue<int>,
    sizeDuration: PropValue<int>,
    timingFunction: PropValue<string>)

  const DefaultFadeDuration: int := 250
  const DefaultSizeDuration: int := 750
  const DefaultTimingFunction: string := "ease"

  /** One key of `{ key: default, ...props }`: any key present in `props` wins, even one
      whose value is undefined. */
  function Override<T>(default: T, passed: PropValue<T>): PropValue<T>
  {
    if passed.Omitted? then Given(default) else passed
  }

  /** The default-prop merge at the top of the component. */
  function MergeDefaults(passed: Config): (c: Config)
    ensures !c.fadeDuration.Omitted? && !c.sizeDuration.Omitted? && !c.timingFunction.Omitted?
    ensures passed.fadeDuration.Omitted? ==> c.fadeDuration == Given(DefaultFadeDuration)
    ensures passed.sizeDuration.Omitted? ==> c.sizeDuration == Given(DefaultSizeDuration)
    ensures passed.timingFunction.Omitted? ==> c.timingFunction == Given(DefaultTimingFunction)
    ensures !passed.fadeDuration.Omitted? ==> c.fadeDuration == passed.fadeDuration
    ensures !passed.sizeDuration.Omitted? ==> c.sizeDuration == passed.sizeDuration
    ensures !passed.timingFunction.Omitted? ==> c.timingFunction == passed.timingFunction
  {
    Config(
      Override(DefaultFadeDuration, passed.fadeDuration),
      Override(DefaultSizeDuration, passed.sizeDuration),
      Override(DefaultTimingFunction, passed.timingFunction))
  }

  /** The delay a host timer applies when given a duration prop: a negative or undefined
      duration fires without delay. */
  function Delay(d: PropValue<int>): (ms: nat)
    ensures d.Given? && d.value >= 0 ==> ms == d.value
    ensures !(d.Given? && d.value > 0) ==> ms == 0
  {
    if d.Given? && d.value > 0 then d.value else 0
  }
}
