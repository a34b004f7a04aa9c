/** The inline style of an element (`element.style`), as a table from property to value. */
module InlineStyle {
  import opened Props

  /** The CSS properties the controller writes; `Other` stands for every other property,
      and is meant for names other than those of the listed ones (`Other("width")` is not
      identified with `Width`; the controller never reads or writes an `Other`). */
  datatype Property =
    | Transition | BorderWidth | Height | Width | MaxWidth | Opacity
    | MarginLeft | MarginRight | PaddingLeft | PaddingRight
    | Position | PointerEvents | Visibility | ZIndex
    | Other(name: string)

  /** The template strings built from the configuration, kept opaque. */
  datatype Template =
    | ExitTargetFade | ExitParentShrink | EnterParentOpen | EnterTargetOpen | SwapTargetFade
    | CleanupReset

  datatype Option<T> = None | Some(value: T)

  datatype Value = Css(text: string) | Interpolated(template: Template, config: Config)

  /** What reading a property that is not set inline gives. */
  const Unset: Value := Css("")

  /** The inline declarations of an element, one per property the controller writes and a
      table for every other one, and the text of its style attribute when that was last
      written as a whole: a text that holds no declaration. */
  datatype Style = Style(
    transition: Value, borderWidth: Value, height: Value, width: Value, maxWidth: Value,
    opacity: Value, marginLeft: Value, marginRight: Value, paddingLeft: Value,
    paddingRight: Value, position: Value, pointerEvents: Value, visibility: Value,
    zIndex: Value, others: map<string, Value>, attribute: Option<Value>)
  {
    /** `style.<property>` */
    function Get(p: Property): Value
    {
      match p
      case Transition => transition
      case BorderWidth => borderWidth
      case Height => height
      case Width => width
      case MaxWidth => maxWidth
      case Opacity => opacity
      case MarginLeft => marginLeft
      case MarginRight => marginRight
      case PaddingLeft => paddingLeft
      case PaddingRight => paddingRight
      case Position => position
      case PointerEvents => pointerEvents
      case Visibility => visibility
      case ZIndex => zIndex
      case Other(name) => if name in others then others[name] else Unset
    }

    /** The declarations with `p` holding `v`. */
    function Declare(p: Property, v: Value): (r: Style)
    {
      match p
      case Transition => this.(transition := v)
      case BorderWidth => this.(borderWidth := v)
      case Height => this.(height := v)
      case Width => this.(width := v)
      case MaxWidth => this.(maxWidth := v)
      case Opacity => this.(opacity := v)
      case MarginLeft => this.(marginLeft := v)
      case MarginRight => this.(marginRight := v)
      case PaddingLeft => this.(paddingLeft := v)
      case PaddingRight => this.(paddingRight := v)
      case Position => this.(position := v)
      case PointerEvents => this.(pointerEvents := v)
      case Visibility => this.(visibility := v)
      case ZIndex => this.(zIndex := v)
      case Other(name) => this.(others := others[name := v])
    }

    /** `style.<property> = v`: the attribute is rewritten from the declarations. */
    function Set(p: Property, v: Value): (r: Style)
      ensures r.attribute == None
    {
      Declare(p, v).(attribute := None)
    }

    /** After `style.<p> = v`, `p` reads `v` and every other property reads as before. */
    lemma SetGet(p: Property, v: Value)
      ensures forall q :: Set(p, v).Get(q) == if q == p then v else Get(q)
    {
    }

    /** `style.removeProperty(p)`: afterwards `p` reads as the empty string, as a property
        that was never set does. A removal leaves the attribute text as it is. */
    function Remove(p: Property): (r: Style)
      ensures r.attribute == attribute
    {
      Declare(p, Unset)
    }

    /** After `style.removeProperty(p)`, `p` reads as unset and every other property reads
        as before. */
    lemma RemoveGet(p: Property)
      ensures forall q :: Remove(p).Get(q) == if q == p then Unset else Get(q)
    {
    }
  }

  /** Declarations that set nothing. */
  function Blank(attribute: Option<Value>): (r: Style)
  {
    Style(Unset, Unset, Unset, Unset, Unset, Unset, Unset, Unset, Unset, Unset, Unset, Unset,
      Unset, Unset, map[], attribute)
  }

  /** An element with no inline style. */
  const NoStyle: Style := Blank(None)

  /** `element.setAttribute("style", text)` with a text that holds no declaration. */
  function Overwrite(text: Value): (r: Style)
    ensures forall q :: r.Get(q) == Unset
    ensures r.attribute == Some(text)
  {
    Blank(Some(text))
  }
}
