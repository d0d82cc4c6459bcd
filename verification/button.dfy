/**
 * The button's class string. `color` defaults to "btn-primary" when omitted and
 * `removeDefaultStyle` to false; the sentinel "btn-null" suppresses the colour
 * class. Every other prop is passed through to the `<button>` element.
 */
module Button {
  import opened Wrappers
  import opened JsStrings

  /** The `color` prop: omitted, explicitly `null`, or a class name. */
  datatype ColorProp = Omitted | Null | Named(cls: string)

  /** The props; `rest` is everything else, which the component forwards untouched. */
  datatype ButtonProps<Rest> = ButtonProps(
    color: ColorProp,
    className: Option<string>,
    removeDefaultStyle: Option<bool>,
    rest: Rest)

  /** The rendered `<button>`: its class attribute and the forwarded props. */
  datatype ButtonView<Rest> = ButtonView(className: string, attributes: Rest)

  const DefaultColor := "btn-primary"
  const NoColor := "btn-null"

  /** The default parameter `color = 'btn-primary'`: it replaces only an omitted colour, not `null`. */
  function ColorWithDefault(color: ColorProp): ColorProp {
    if color.Omitted? then Named(DefaultColor) else color
  }

  /** `${color}` for a colour after defaulting; `null` reads "null". */
  function ColorText(color: ColorProp): string {
    match color
    case Named(c) => c
    case Null => "null"
    case Omitted => "undefined"
  }

  /**
   * `color === 'btn-null' ? '' : color`, interpolated, with the default
   * applied. It is empty exactly for "btn-null" and for the empty class name;
   * otherwise it is the colour's text, with the default for an omitted one.
   */
  function ColorPart(color: ColorProp): (part: string)
    ensures part == "" <==> color == Named(NoColor) || color == Named("")
    ensures color.Named? && color.cls != NoColor ==> part == color.cls
    ensures color.Omitted? ==> part == DefaultColor
    ensures color.Null? ==> part == "null"
  {
    var c := ColorWithDefault(color);
    if c == Named(NoColor) then "" else ColorText(c)
  }

  /**
   * The `className` expression. With `removeDefaultStyle` it is a space
   * followed by the caller's class; otherwise "btn", the colour part and the
   * caller's class, separated by single spaces.
   */
  function ButtonClass<Rest>(props: ButtonProps<Rest>): (cls: string)
    ensures IsTrue(props.removeDefaultStyle) ==> cls == Join(["", Interpolate(props.className)], " ")
    ensures !IsTrue(props.removeDefaultStyle) ==>
              cls == Join(["btn", ColorPart(props.color), Interpolate(props.className)], " ")
  {
    var className := Interpolate(props.className);
    if IsTrue(props.removeDefaultStyle) then " " + className
    else
      var part := ColorPart(props.color);
      assert ["btn", part, className][1..] == [part, className];
      assert [part, className][1..] == [className];
      assert Join([part, className], " ") == part + " " + className;
      assert "btn" + " " == "btn ";
      "btn " + part + " " + className
  }

  /** The component: the computed class, and every other prop forwarded as given. */
  function Render<Rest>(props: ButtonProps<Rest>): (view: ButtonView<Rest>)
    ensures view.attributes == props.rest
    ensures view.className == ButtonClass(props)
  {
    ButtonView(ButtonClass(props), props.rest)
  }

  /** A button with only a class name is "btn btn-primary " followed by that class. */
  lemma DefaultButtonClass<Rest>(className: string, rest: Rest)
    ensures ButtonClass(ButtonProps(Omitted, Some(className), None, rest)) == "btn btn-primary " + className
  {
  }

  /**
   * An explicit `null` colour is not defaulted and not suppressed: it is
   * written out as the class "null".
   */
  lemma NullColorWrittenOut<Rest>(className: string, rest: Rest)
    ensures ButtonClass(ButtonProps(Null, Some(className), None, rest)) == "btn null " + className
  {
  }

  /** With default styling removed the class is exactly " " + className, whatever the colour. */
  lemma RemovedStyleIgnoresColor<Rest>(props: ButtonProps<Rest>, className: string)
    requires IsTrue(props.removeDefaultStyle) && props.className == Some(className)
    ensures ButtonClass(props) == " " + className
  {
  }

  /** The forwarded props never change the class. */
  lemma RestDoesNotAffectClass<Rest>(props: ButtonProps<Rest>, other: Rest)
    ensures ButtonClass(props.(rest := other)) == ButtonClass(props)
    ensures Render(props.(rest := other)).attributes == other
  {
  }

  /**
   * Read back with `split(' ')`, a styled button's class is "btn", the colour
   * part, then the caller's class, provided neither holds a space; an
   * unstyled one is an empty piece then the caller's class.
   */
  lemma ButtonClassPieces<Rest>(props: ButtonProps<Rest>, className: string)
    requires props.className == Some(className) && ' ' !in className
    requires props.color.Named? ==> ' ' !in props.color.cls
    ensures !IsTrue(props.removeDefaultStyle) ==>
              Split(ButtonClass(props), ' ') == ["btn", ColorPart(props.color), className]
    ensures IsTrue(props.removeDefaultStyle) ==>
              Split(ButtonClass(props), ' ') == ["", className]
  {
    var part := ColorPart(props.color);
    assert ' ' !in part by {
      assert props.color.Omitted? ==> part == "btn-primary";
      assert props.color.Null? ==> part == "null";
    }
    if IsTrue(props.removeDefaultStyle) {
      SplitJoin(["", className], ' ');
    } else {
      var pieces := ["btn", part, className];
      forall i | 0 <= i < 3 ensures ' ' !in pieces[i] {
      }
      SplitJoin(pieces, ' ');
    }
  }
}
