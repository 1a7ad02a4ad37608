/** The clock's settings store, as seen by one reading of all its keys, and
    the bounds the applet's settings panel (desktop_analog_clock.py) puts on
    the numeric keys through its spin buttons. */
module ClockSettings {

  /** One reading of every key the clock window uses. `transparency` is the
      store's double, carried through unchanged; colours are the stored
      strings (a hex code, a colour name, or "none"). */
  datatype Settings = Settings(
    x: int,
    y: int,
    scale: int,
    showDesktop: bool,
    transparency: real,
    colorHands: string,
    colorSeconds: string,
    colorFace: string,
    showSeconds: bool,
    clockNumber: int)

  /** The keys of the settings store that the clock window reads. */
  datatype Key =
    | X | Y | Scale | ShowDesktop | Transparency
    | ColorHands | ColorSeconds | ColorFace | ShowSeconds | ClockNumber

  /** The name a change notification carries for a key. */
  function KeyName(k: Key): string
  {
    match k
    case X => "x"
    case Y => "y"
    case Scale => "scale"
    case ShowDesktop => "show-desktop"
    case Transparency => "transparency"
    case ColorHands => "color-hands"
    case ColorSeconds => "color-seconds"
    case ColorFace => "color-face"
    case ShowSeconds => "show-seconds"
    case ClockNumber => "clock-number"
  }

  /** The keys whose values differ between two readings. */
  function ChangedKeys(a: Settings, b: Settings): (ks: set<Key>)
    ensures ks == {} <==> a == b
    ensures Scale !in ks ==> a.scale == b.scale
    ensures ClockNumber !in ks ==> a.clockNumber == b.clockNumber
  {
    (if a.x != b.x then {X} else {}) +
    (if a.y != b.y then {Y} else {}) +
    (if a.scale != b.scale then {Scale} else {}) +
    (if a.showDesktop != b.showDesktop then {ShowDesktop} else {}) +
    (if a.transparency != b.transparency then {Transparency} else {}) +
    (if a.colorHands != b.colorHands then {ColorHands} else {}) +
    (if a.colorSeconds != b.colorSeconds then {ColorSeconds} else {}) +
    (if a.colorFace != b.colorFace then {ColorFace} else {}) +
    (if a.showSeconds != b.showSeconds then {ShowSeconds} else {}) +
    (if a.clockNumber != b.clockNumber then {ClockNumber} else {})
  }

  /** Lower bound of every spin button in the settings panel. */
  const SpinLower: int := 1
  /** Upper bound of the x, y and scale spin buttons. */
  const GeometryUpper: int := 10000
  /** Upper bound of the clock-face spin button. */
  const ClockNumberUpper: int := 4

  /** The values the settings panel can write to the numeric keys. */
  predicate WithinSpinBounds(s: Settings)
  {
    && SpinLower <= s.x <= GeometryUpper
    && SpinLower <= s.y <= GeometryUpper
    && SpinLower <= s.scale <= GeometryUpper
    && SpinLower <= s.clockNumber <= ClockNumberUpper
  }
}
