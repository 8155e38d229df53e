/** The element registry: the physical controls of an extended gamepad and the
    symbolic identifier each one resolves to. */
module Elements {

  /** A control of the attached gamepad. The fifteen named controls are the ones
      the resolver compares against; every other control the platform can report
      (a thumbstick as a whole, the direction pad as a whole, an options button,
      ...) is an `Other`, told apart only by an opaque identity. */
  datatype Element =
    | ButtonX | ButtonCircle | ButtonSquare | ButtonTriangle
    | LeftShoulder | RightShoulder
    | LeftTrigger | RightTrigger
    | DpadLeft | DpadRight | DpadUp | DpadDown
    | LeftThumbstickButton | RightThumbstickButton
    | ButtonMenu
    | Other(identity: nat)

  /** The identifier an unrecognized control resolves to. */
  const Unrecognized: string := ""

  /** The resolver: a switch over the known controls, falling through to the
      sentinel. It is a function of the element alone, so it is deterministic;
      only unknown controls give the sentinel, and no control resolves to the
      identifier "touchpadButton". */
  function ElementAlias(e: Element): (key: string)
    ensures key == Unrecognized <==> e.Other?
    ensures key != "touchpadButton"
  {
    match e
    case ButtonX => "buttonX"
    case ButtonCircle => "buttonCircle"
    case ButtonSquare => "buttonSquare"
    case ButtonTriangle => "buttonTriangle"
    case LeftShoulder => "leftShoulder"
    case RightShoulder => "rightShoulder"
    case LeftTrigger => "leftTrigger"
    case RightTrigger => "rightTrigger"
    case DpadLeft => "dpad.left"
    case DpadRight => "dpad.right"
    case DpadUp => "dpad.up"
    case DpadDown => "dpad.down"
    case LeftThumbstickButton => "leftThumbstickButton"
    case RightThumbstickButton => "rightThumbstickButton"
    case ButtonMenu => "buttonMenu"
    case Other(_) => Unrecognized
  }

  /** The known controls, in the order the resolver tests them. */
  function KnownElements(): (known: seq<Element>)
    ensures |known| == 15
  {
    [ ButtonX, ButtonCircle, ButtonSquare, ButtonTriangle,
      LeftShoulder, RightShoulder, LeftTrigger, RightTrigger,
      DpadLeft, DpadRight, DpadUp, DpadDown,
      LeftThumbstickButton, RightThumbstickButton, ButtonMenu ]
  }

  /** The resolver tests fifteen controls, each once, and they are exactly
      the controls that are not `Other`. */
  lemma KnownElementsExact()
    ensures |KnownElements()| == 15
    ensures forall i, j :: 0 <= i < j < |KnownElements()| ==> KnownElements()[i] != KnownElements()[j]
    ensures forall e :: e in KnownElements() <==> !e.Other?
  {
  }

  /** Identification is stable: two controls that resolve to the same identifier
      are the same control, unless both are unrecognized. */
  lemma AliasInjective(e1: Element, e2: Element)
    requires ElementAlias(e1) == ElementAlias(e2)
    ensures e1 == e2 || (e1.Other? && e2.Other?)
  {
  }
}
