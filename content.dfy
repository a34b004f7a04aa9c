/** The `children` a TextTransitioner receives and shows: `string | undefined | null`. */
module Children {

  /** JavaScript's strict equality on these values is equality of the datatype values. */
  datatype Content = Null | Undefined | Str(s: string)

  /** `children == null || children?.length === 0`: the loose comparison with null holds for
      both null and undefined, and a string is empty when its length is zero. */
  predicate IsEmpty(c: Content): (r: bool)
    ensures r <==> c == Null || c == Undefined || c == Str("")
  {
    match c
    case Null => true
    case Undefined => true
    case Str(s) => |s| == 0
  }
}
