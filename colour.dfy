/** The colour handling of the applet's settings panel
    (desktop_analog_clock.py): `on_color_changed` stores a picked colour as
    "#rrggbb", taking the high byte of each 16-bit channel, and a stored
    colour of "none" is shown in the colour button as transparent. */
module ColourCode {
  import opened Numerals

  /** A channel of a picked colour: 0 to 65535. */
  newtype uint16 = c: int | 0 <= c < 0x1_0000

  /** A colour read back from its "#rrggbb" text, one byte per channel. */
  datatype Rgb = Rgb(red: nat, green: nat, blue: nat)

  /** `int(c / 256)`: true division then truncation, which for a
      non-negative channel is its high byte. */
  function ChannelByte(c: uint16): (b: nat)
    ensures b < 256
    ensures b * 256 <= c as int < (b + 1) * 256
  {
    c as int / 256
  }

  /** `"#{:02x}{:02x}{:02x}".format(...)` of the three channel bytes. */
  function EncodeColour(red: uint16, green: uint16, blue: uint16): (s: string)
    ensures |s| == 7 && s[0] == '#'
    ensures forall i :: 1 <= i < 7 ==> IsLowerHexDigit(s[i])
  {
    var r, g, b := ChannelByte(red), ChannelByte(green), ChannelByte(blue);
    Hex02Byte(r);
    Hex02Byte(g);
    Hex02Byte(b);
    "#" + Hex02(r) + Hex02(g) + Hex02(b)
  }

  /** Reference reader for two hexadecimal digits. */
  function PairValue(hi: char, lo: char): (r: Option<nat>)
    ensures r.Some? ==> r.value < 256
  {
    match (CharValue(hi), CharValue(lo))
    case (Some(h), Some(l)) => Some(16 * h + l)
    case _ => None
  }

  /** Reference reader for "#rrggbb" text. */
  function DecodeColour(s: string): Option<Rgb>
  {
    if |s| != 7 || s[0] != '#' then None
    else
      match (PairValue(s[1], s[2]), PairValue(s[3], s[4]), PairValue(s[5], s[6]))
      case (Some(r), Some(g), Some(b)) => Some(Rgb(r, g, b))
      case _ => None
  }

  lemma PairOfByte(n: nat)
    requires n < 256
    ensures PairValue(DigitChar(n / 16), DigitChar(n % 16)) == Some(n)
  {
  }

  /** Reading the stored text back gives each channel's high byte, in red,
      green, blue order. */
  lemma {:induction false} DecodeEncode(red: uint16, green: uint16, blue: uint16)
    ensures DecodeColour(EncodeColour(red, green, blue))
            == Some(Rgb(ChannelByte(red), ChannelByte(green), ChannelByte(blue)))
  {
    var r, g, b := ChannelByte(red), ChannelByte(green), ChannelByte(blue);
    Hex02Byte(r);
    Hex02Byte(g);
    Hex02Byte(b);
    PairOfByte(r);
    PairOfByte(g);
    PairOfByte(b);
    var s := EncodeColour(red, green, blue);
    assert s == ['#', DigitChar(r / 16), DigitChar(r % 16), DigitChar(g / 16), DigitChar(g % 16),
                 DigitChar(b / 16), DigitChar(b % 16)];
  }

  /** Two colours are stored alike exactly when their channels agree in the
      high byte: the low byte of every channel is dropped. */
  lemma EncodeEqualIff(r1: uint16, g1: uint16, b1: uint16, r2: uint16, g2: uint16, b2: uint16)
    ensures EncodeColour(r1, g1, b1) == EncodeColour(r2, g2, b2)
            <==> (&& r1 as int / 256 == r2 as int / 256
                 && g1 as int / 256 == g2 as int / 256
                 && b1 as int / 256 == b2 as int / 256)
  {
    DecodeEncode(r1, g1, b1);
    DecodeEncode(r2, g2, b2);
  }

  /** A stored colour is a string the encoder wrote or "none", which stands
      for no colour at all. */
  const NoColour: string := "none"
  const Transparent: string := "rgba(0,0,0,0)"

  /** The text the settings panel hands to the colour parser for a stored
      colour: "none" becomes fully transparent black, anything else is
      parsed as it is. */
  function ButtonColourSpec(stored: string): (spec: string)
    ensures spec == Transparent <==> stored == NoColour || stored == Transparent
    ensures spec != Transparent ==> spec == stored
  {
    if stored == NoColour then Transparent else stored
  }

  /** The encoder never writes "none", so a colour picked in the panel comes
      back into the colour button unchanged and reads as the same bytes. */
  lemma PickedColourReloads(red: uint16, green: uint16, blue: uint16)
    ensures ButtonColourSpec(EncodeColour(red, green, blue)) == EncodeColour(red, green, blue)
    ensures DecodeColour(ButtonColourSpec(EncodeColour(red, green, blue)))
            == Some(Rgb(ChannelByte(red), ChannelByte(green), ChannelByte(blue)))
  {
    DecodeEncode(red, green, blue);
  }
}
