# Desktop Analog Clock — verified model of its core

A Dafny model of the two small pieces of logic in the Desktop Analog Clock
(a Budgie applet plus a stand-alone GTK clock window), with proofs of what
they promise:

* **Hand positions** (`ClockHands`, hands.dfy). This is the integer half of
  `get_coords` in desktop-clock.py. The time of day becomes three dial
  positions in "units": 720 to a turn, with unit 0 at three o'clock. The hour
  is folded to twelve-hour form, keeping 12 as 12. The hour hand counts
  `hours * 60 + minutes`, and the minute and second hands count 12 units per
  step. Each value is shifted back 180 units and wrapped once by +720.
* **The clock window** (`ClockWindow`, window.dfy, with the settings
  snapshot in `ClockSettings`, settings.dfy). `DesktopAnalogWindow` is a
  class whose fields are those `update` overwrites. `Update` is the handler
  of the settings store's "changed" signal. It copies every setting and
  applies the opacity. Then it either ends the process (show-desktop off) or
  reloads the face image for the keys "scale", "initial" and "clock-number"
  only, and moves and resizes the window. `Paint` is the sequence of
  visible drawing operations `on_draw` issues.
* **Colour codes** (`ColourCode`, colour.dfy). `on_color_changed` in
  desktop_analog_clock.py stores a picked colour as `#rrggbb`, taking the
  high byte of each 16-bit channel. A stored colour of `"none"` is shown in
  the colour button as `rgba(0,0,0,0)`.
* **Python's number formatting** (`Numerals`, numerals.dfy). This covers
  `str(n)` and `"{:02x}".format(n)`, with reference readers that recover the
  number from the text.

Each state-changing step is tied to a pure specification function.
`Update` ensures `State() == Updated(old(State()), key, s, files)`. Lemmas
then state what `Updated` keeps, changes and ignores.

Time, the settings store and the file system are parameters:

* A `ClockTime` holds the reading `datetime.now()` would give.
* A `Settings` value holds one reading of every key.
* `files` is the set of face image names present beside the program.

The centre dot of `on_draw` sets no colour of its own. It is filled with the
colour that was set last: the second-hand colour when seconds are shown,
otherwise the hand colour. The model draws it that way.

## Model

| member | source | states |
|---|---|---|
| ClockHands.TwelveHour | desktop-clock.py:126-127 | hours above 12 lose 12, and 0 and 12 are kept: the result is in [0,12], congruent to the hour mod 12, 0 only for hour 0 and 12 only for hour 12 |
| ClockHands.Recentre | desktop-clock.py:139-149 | the −180 shift with one +720 wrap equals reduction mod 720 exactly when the shifted value is in [−720,720), and then lies in [0,720) |
| ClockHands.HourUnit | desktop-clock.py:125-145 | for hour 0..23 and minute 0..59 the hour unit lies in [0,720), so one wrap is enough |
| ClockHands.StepUnit | desktop-clock.py:135-149 | the minute and second units lie in [0,720) and are multiples of 12 |
| ClockHands.Units | desktop-clock.py:124-149 | all three units of a valid reading lie in [0,720) |
| ClockHands.HourUnitClosedForm | desktop-clock.py:125-145 | hour unit == (60·(hour mod 12) + minute − 180) mod 720 |
| ClockHands.StepUnitClosedForm | desktop-clock.py:135-149 | minute and second units == (12·n − 180) mod 720 |
| ClockHands.MidnightAndNoonAgree | desktop-clock.py:126-145 | hours 0 and 12 give the same hour unit, 540 + minute |
| ClockHands.AfternoonRepeatsMorning | desktop-clock.py:126-145 | hour h+12 gives the same hour unit as hour h for 1 ≤ h ≤ 11 |
| ClockHands.LandmarkTimes | desktop-clock.py:124-149 | 03:00 is unit 0, 09:00 is unit 360, and at 00:00:00 and 12:00:00 all hands are at 540 |
| ClockHands.MinuteHandIsStepped | desktop-clock.py:132-135 | the minute unit depends on the minute only, not on the seconds |
| ClockHands.HourHandAdvancesEachMinute | desktop-clock.py:125-145 | one minute later, across 12:59 and 23:59 too, the hour unit is one more mod 720 |
| ClockHands.MinuteHandAdvancesEachMinute | desktop-clock.py:135-147 | one minute later the minute unit is 12 more mod 720 |
| ClockHands.SecondHandAdvances | desktop-clock.py:137-149 | one second later, :59 to :00 included, the second unit is 12 more mod 720 |
| ClockWindow.FaceImageName | desktop-clock.py:102 | the face file name "ci" + str(n) + ".png"; no contract of its own, `FaceImageNameReadsBack` and `FaceImageNameInjective` state what it writes |
| ClockWindow.FaceImageNameReadsBack | desktop-clock.py:102 | the face file name is "ci", the number in decimal, ".png", and the number reads back from it |
| ClockWindow.FaceImageNameInjective | desktop-clock.py:102 | different face numbers name different files, and equal numbers the same file |
| ClockWindow.SpinBoundedFaces | desktop_analog_clock.py:78-81 | with the spin-button bounds (clock-number in [1,4]) the face file is one of ci1.png … ci4.png |
| ClockWindow.LoadFace | desktop-clock.py:102-113 | an image is loaded exactly when the face file exists, and it is that file loaded at the requested size scale × scale; otherwise the empty pixbuf |
| ClockWindow.Updated | desktop-clock.py:90-116 | the state `update` leaves, as a function of the old state, the key, the settings read and the files present; no contract of its own, `UpdateEffects` states what it keeps and changes |
| ClockWindow.UpdateEffects | desktop-clock.py:90-116 | after an update the fields mirror the settings and the opacity is the transparency; the process keeps running iff show-desktop is on; when it is off, image and geometry are untouched; the image changes only for a reload key and is then `LoadFace`; otherwise the window is moved to (x, y) and sized scale × scale |
| ClockWindow.UpdateIgnoresPreviousSettings | desktop-clock.py:91-99 | nothing is diffed: while show-desktop stays on, two running windows with the same cached image end up identical after the same update |
| ClockWindow.UpdateIdempotent | desktop-clock.py:90-116 | handling the same notification twice gives the same state as once |
| ClockWindow.CachedFaceStaysCurrent | desktop-clock.py:108-114 | when each notification names the key that changed, skipping the reload for other keys still leaves the image that `LoadFace` gives for the new settings |
| ClockWindow.UnnamedKeysUnchanged | desktop-clock.py:109 | a notification naming neither "scale" nor "clock-number" means neither changed |
| ClockWindow.DesktopAnalogWindow.constructor | desktop-clock.py:17-29 | the new window is the state one "initial" update leaves, and it is consistent |
| ClockWindow.DesktopAnalogWindow.Update | desktop-clock.py:90-116 | the new state is `Updated(old state, key, settings, files)` and consistency is kept |
| ClockWindow.DesktopAnalogWindow.CopySettings | desktop-clock.py:91-100 | every setting is copied and the opacity applied; the image, geometry and running flag are unchanged |
| ClockWindow.Centre | desktop-clock.py:53 | the centre of the face, (scale/2, scale/2), where the face disc, every stroke and the dot are anchored; no contract of its own, `Paint` states its use |
| ClockWindow.DotRadius | desktop-clock.py:87 | the centre dot's radius scale/100 + 2; no contract of its own, `SecondsToggle` states its use |
| ClockWindow.HandWidth | desktop-clock.py:66 | the hour and minute hands are at least 1 wide for a non-negative scale |
| ClockWindow.SecondHandWidth | desktop-clock.py:78-81 | the second-hand width is never below 1; it is 1 exactly when scale < 210, and otherwise at least 2 |
| ClockWindow.SecondHandWidthJump | desktop-clock.py:78-81 | the width is 1 at scale 209 and 2 at scale 210 |
| ClockWindow.SecondHandWidthMonotone | desktop-clock.py:78-81 | a larger scale never gives a thinner second hand |
| ClockWindow.SecondHandNoWiderThanHands | desktop-clock.py:66-81 | for a non-negative scale, the second hand is never wider than the hour and minute hands |
| ClockWindow.Paint | desktop-clock.py:44-88 | the order is face disc in the face colour, face image, hour stroke and minute stroke in the hand colour at width scale/50 + 1, the second stroke in the second-hand colour at `SecondHandWidth` only when shown, then the centre dot; every stroke runs from the centre to its tip, and for a non-negative scale every stroke is at least 1 wide |
| ClockWindow.SecondsToggle | desktop-clock.py:74-88 | turning seconds off removes the second stroke and keeps the first four operations; the centre dot is then filled with the hand colour instead of the second-hand colour |
| ClockSettings.WithinSpinBounds | desktop_analog_clock.py:78-81 | x, y and scale in [1,10000] and clock-number in [1,4]; no contract of its own, `SpinBoundedFaces` states its consequence for the face file |
| ClockSettings.ChangedKeys | desktop-clock.py:32 | the set of keys whose values differ is empty exactly when the readings are equal, and leaves out scale and clock-number only when they are equal |
| ColourCode.ChannelByte | desktop_analog_clock.py:165-167 | `int(c/256)` of a 16-bit channel is its high byte: in [0,255] with byte·256 ≤ c < (byte+1)·256 |
| ColourCode.EncodeColour | desktop_analog_clock.py:163-168 | the stored code has length 7, starts with '#', and the other six characters are lower-case hex digits |
| ColourCode.DecodeEncode | desktop_analog_clock.py:165-167 | reading the hex pairs back gives the three high bytes, in red, green, blue order |
| ColourCode.EncodeEqualIff | desktop_analog_clock.py:165-167 | two colours are stored alike iff every channel agrees in its high byte, so the low bytes are lost |
| ColourCode.ButtonColourSpec | desktop_analog_clock.py:124-127 | "none" is shown as rgba(0,0,0,0); any other stored text is parsed as it is |
| ColourCode.PickedColourReloads | desktop_analog_clock.py:124-168 | the encoder never writes "none", so a picked colour comes back into the button unchanged and decodes to the same bytes |
| Numerals.Digits | desktop-clock.py:102 | the digits of n in a base: at least one, all below the base, no leading zero unless n is 0, and their value is n |
| Numerals.DigitsLength | desktop_analog_clock.py:165 | numbers below the base have one digit, and those below base² have two |
| Numerals.DigitChar | desktop_analog_clock.py:165 | digit values are written as '0'..'9' and 'a'..'f', and read back as the same value |
| Numerals.PyStr | desktop-clock.py:102 | `str(n)` is non-empty and starts with '-' exactly for negative n |
| Numerals.PyStrOneDigit | desktop-clock.py:102 | `str(n)` of 0..9 is that one digit |
| Numerals.PyStrRoundTrip | desktop-clock.py:102 | `int(str(n)) == n` |
| Numerals.PyStrInjective | desktop-clock.py:102 | different integers are written differently |
| Numerals.Hex02 | desktop_analog_clock.py:165 | `"{:02x}"` writes at least two characters |
| Numerals.Hex02Byte | desktop_analog_clock.py:165 | a byte is written as exactly two hex digits, high nibble first, zero-padded |

## Left out

- The cos/sin projection of the units onto the dial, `round`, and the radius fractions 0.55, 0.78 and 0.81 (desktop-clock.py:151-163). This is floating-point trigonometry. `Paint` takes the hand tips as a parameter.
- on_draw storing the tip coordinates in `hour_x` … `sec_y`: these fields are read by nothing else and are not modelled.
- Float rounding in `on_draw`: Python's true division is modelled with exact `real`s.
- Cairo drawing calls. `Paint` lists only the visible operations. The face line width (desktop-clock.py:52) is set but never stroked, so it is left out, and so are the line cap and the arc angles.
- `Gdk.RGBA.parse`. Draw operations carry the colour strings handed to the parser. What a failed parse (for example "none" as a face colour) leaves in the reused RGBA is not modelled.
- GdkPixbuf decoding and scaling, including decode errors of an existing file, and the console message for a missing file. A loaded image is represented by its file name and size.
- The full path of the face file: existence is checked against names in `files`.
- `datetime.now`, the one-second redraw timer, `load_clock`, `queue_draw`, `Gtk.main` and the `--quit` command line: these are event-loop plumbing. Time enters as a `ClockTime` parameter.
- ClockWindow.DesktopAnalogWindow.Update: `quit()` is taken to end the process at once (`running` becomes false and nothing after it runs). How the toolkit treats an exit raised inside a signal handler is not modelled, so `Update` requires a running window.
- Gio.Settings reads, writes and binds, and all widget and grid construction in the settings panel. The spin-button bounds are kept as `WithinSpinBounds`. `set_opacity` is modelled as the `opacity` field.
- `init_ui`'s resize to the same scale, `set_position(CENTER)` and the window hints. `Update` has already placed the window, and the centring by the window manager is not modelled.
- Spawning and killing the clock process from the applet (desktop_analog_clock.py:180-202): this is operating-system process handling.
