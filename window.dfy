/** The clock window of desktop-clock.py: the fields `update` copies from the
    settings store on every change notification, the face image it reloads
    for some keys only, the move/resize it then performs or the exit it takes
    instead, and the fixed sequence of drawing operations `on_draw` issues. */
module ClockWindow {
  import opened ClockSettings
  import Numerals

  // ---------------------------------------------------------------------------
  // Face image
  // ---------------------------------------------------------------------------

  /** The window's face image: an image file loaded at `size` x `size`
      pixels, or the empty pixbuf used when the file is missing. */
  datatype Pixbuf = EmptyPixbuf | Loaded(file: string, size: int)

  /** The file name of face number `n`: "ci" + str(n) + ".png". */
  function FaceImageName(n: int): string
  {
    "ci" + Numerals.PyStr(n) + ".png"
  }

  /** The face number can be read back out of the file name. */
  lemma FaceImageNameReadsBack(n: int)
    ensures var name := FaceImageName(n);
      && |name| >= 7
      && name[..2] == "ci" && name[|name| - 4..] == ".png"
      && Numerals.ParseInt(name[2..|name| - 4]) == Numerals.Some(n)
  {
    Numerals.PyStrRoundTrip(n);
    var name := FaceImageName(n);
    assert name[2..|name| - 4] == Numerals.PyStr(n);
  }

  /** Different face numbers name different files. */
  lemma FaceImageNameInjective(a: int, b: int)
    ensures FaceImageName(a) == FaceImageName(b) <==> a == b
  {
    FaceImageNameReadsBack(a);
    FaceImageNameReadsBack(b);
  }

  /** The settings panel only offers faces 1 to 4. */
  lemma {:induction false} SpinBoundedFaces(s: Settings)
    requires WithinSpinBounds(s)
    ensures FaceImageName(s.clockNumber) in {"ci1.png", "ci2.png", "ci3.png", "ci4.png"}
  {
    var n := s.clockNumber;
    Numerals.PyStrOneDigit(n);
    var name := FaceImageName(n);
    assert name == "ci" + [Numerals.DigitChar(n)] + ".png";
    if n == 1 {
      assert name == "ci1.png";
    } else if n == 2 {
      assert name == "ci2.png";
    } else if n == 3 {
      assert name == "ci3.png";
    } else {
      assert name == "ci4.png";
    }
  }

  /** The image `update` installs: the face file scaled to the window's
      size if it exists among `files` (the names beside the program), the
      empty pixbuf otherwise. */
  function LoadFace(s: Settings, files: set<string>): (pb: Pixbuf)
    ensures pb.Loaded? <==> FaceImageName(s.clockNumber) in files
    ensures pb.Loaded? ==> pb.file == FaceImageName(s.clockNumber) && pb.size == s.scale
  {
    var name := FaceImageName(s.clockNumber);
    if name in files then Loaded(name, s.scale) else EmptyPixbuf
  }

  /** Notification keys after which `update` reloads the face image;
      "initial" is the key the window's constructor passes. */
  const ReloadKeys: set<string> := {"scale", "initial", "clock-number"}
  const InitialKey: string := "initial"

  // ---------------------------------------------------------------------------
  // Window state and the update step
  // ---------------------------------------------------------------------------

  /** Everything `update` and `on_draw` touch: the copied settings, the
      drawing area's opacity, the face image, where the window was last moved
      and what it was last resized to, and whether the process still runs. */
  datatype WindowState = WindowState(
    x: int,
    y: int,
    scale: int,
    showClock: bool,
    transp: real,
    handColor: string,
    secondColor: string,
    faceColor: string,
    showSeconds: bool,
    opacity: real,
    pb: Pixbuf,
    posX: int,
    posY: int,
    width: int,
    height: int,
    running: bool)
  {
    /** The window's copies of the settings are those of `s`. */
    predicate Mirrors(s: Settings)
    {
      && x == s.x && y == s.y && scale == s.scale && showClock == s.showDesktop
      && transp == s.transparency && handColor == s.colorHands
      && secondColor == s.colorSeconds && faceColor == s.colorFace
      && showSeconds == s.showSeconds
    }

    /** The drawing area shows the configured opacity and, while the process
        runs, the window sits where the fields say and is `scale` square. */
    predicate Consistent()
    {
      && opacity == transp
      && (running ==> posX == x && posY == y && width == scale && height == scale)
    }
  }

  /** The state of the window object before its constructor's first update. */
  const Unopened: WindowState :=
    WindowState(0, 0, 0, true, 0.0, "", "", "", false, 0.0, EmptyPixbuf, 0, 0, 0, 0, true)

  /** `update(settings, key)` applied to `w`, with `s` the values the store
      returns and `files` the face images present. */
  function Updated(w: WindowState, key: string, s: Settings, files: set<string>): WindowState
  {
    var stays := s.showDesktop;
    WindowState(
      s.x, s.y, s.scale, s.showDesktop, s.transparency,
      s.colorHands, s.colorSeconds, s.colorFace, s.showSeconds,
      s.transparency,
      if stays && key in ReloadKeys then LoadFace(s, files) else w.pb,
      if stays then s.x else w.posX,
      if stays then s.y else w.posY,
      if stays then s.scale else w.width,
      if stays then s.scale else w.height,
      w.running && stays)
  }

  /** What one update does: every setting is copied and the opacity applied;
      with show-desktop off the process ends before the image, position or
      size are touched; otherwise the image is replaced only for the reload
      keys, and the window is moved to (x, y) and resized to scale. */
  lemma UpdateEffects(w: WindowState, key: string, s: Settings, files: set<string>)
    ensures var r := Updated(w, key, s, files);
      && r.Mirrors(s) && r.Consistent()
      && (r.running <==> w.running && s.showDesktop)
      && (!s.showDesktop ==>
            r.pb == w.pb && r.posX == w.posX && r.posY == w.posY
            && r.width == w.width && r.height == w.height)
      && (r.pb != w.pb ==> key in ReloadKeys && s.showDesktop)
      && (key in ReloadKeys && s.showDesktop ==> r.pb == LoadFace(s, files))
      && (s.showDesktop ==> r.posX == s.x && r.posY == s.y && r.width == s.scale && r.height == s.scale)
  {
  }

  /** No diffing: when the clock stays on the desktop, a running window's
      previous settings, opacity and geometry have no bearing on the state an
      update leaves; only the cached image carries over. */
  lemma UpdateIgnoresPreviousSettings(w1: WindowState, w2: WindowState, key: string, s: Settings, files: set<string>)
    requires w1.running && w2.running && w1.pb == w2.pb && s.showDesktop
    ensures Updated(w1, key, s, files) == Updated(w2, key, s, files)
  {
  }

  /** Handling the same notification twice changes nothing more. */
  lemma UpdateIdempotent(w: WindowState, key: string, s: Settings, files: set<string>)
    ensures Updated(Updated(w, key, s, files), key, s, files) == Updated(w, key, s, files)
  {
  }

  /** Skipping the reload is safe as long as every notification names the
      key that changed: an image that matched the old reading still matches
      the new one. */
  lemma CachedFaceStaysCurrent(w: WindowState, before: Settings, key: string, s: Settings, files: set<string>)
    requires w.running && s.showDesktop
    requires w.pb == LoadFace(before, files)
    requires forall k :: k in ChangedKeys(before, s) ==> KeyName(k) == key
    ensures Updated(w, key, s, files).pb == LoadFace(s, files)
  {
    if key !in ReloadKeys {
      UnnamedKeysUnchanged(before, s, key);
      assert LoadFace(before, files) == LoadFace(s, files);
    }
  }

  /** A notification naming neither "scale" nor "clock-number" leaves both. */
  lemma UnnamedKeysUnchanged(before: Settings, s: Settings, key: string)
    requires key != "scale" && key != "clock-number"
    requires forall k :: k in ChangedKeys(before, s) ==> KeyName(k) == key
    ensures before.scale == s.scale && before.clockNumber == s.clockNumber
  {
    var changed := ChangedKeys(before, s);
    if Scale in changed {
      assert false;
    }
    if ClockNumber in changed {
      assert false;
    }
  }

  /** The clock window object. */
  class DesktopAnalogWindow {
    var x: int
    var y: int
    var scale: int
    var showClock: bool
    var transp: real
    var handColor: string
    var secondColor: string
    var faceColor: string
    var showSeconds: bool
    var opacity: real
    var pb: Pixbuf
    var posX: int
    var posY: int
    var width: int
    var height: int
    var running: bool

    function State(): WindowState
      reads this
    {
      WindowState(x, y, scale, showClock, transp, handColor, secondColor, faceColor,
                  showSeconds, opacity, pb, posX, posY, width, height, running)
    }

    /** The object form of `WindowState.Consistent`. */
    ghost predicate Valid()
      reads this
    {
      State().Consistent()
    }

    /** The constructor runs `update` with the key "initial". */
    constructor (s: Settings, files: set<string>)
      ensures Valid()
      ensures State() == Updated(Unopened, InitialKey, s, files)
    {
      x, y, scale, showClock, transp := 0, 0, 0, true, 0.0;
      handColor, secondColor, faceColor, showSeconds := "", "", "", false;
      opacity, pb := 0.0, EmptyPixbuf;
      posX, posY, width, height, running := 0, 0, 0, 0, true;
      new;
      Update(InitialKey, s, files);
    }

    /** The handler of the store's "changed" signal. It is only ever called
        while the process runs. */
    method Update(key: string, s: Settings, files: set<string>)
      requires Valid() && running
      modifies this
      ensures Valid()
      ensures State() == Updated(old(State()), key, s, files)
    {
      CopySettings(s);
      if !showClock {
        running := false;
        return;
      }
      // Only a change of face or size needs the image decoded again.
      if key in ReloadKeys {
        pb := LoadFace(s, files);
      }
      posX, posY := x, y;
      width, height := scale, scale;
    }

    /** The first half of `update`: copy every setting into its field and
        apply the transparency to the drawing area. */
    method CopySettings(s: Settings)
      modifies this
      ensures State().Mirrors(s) && opacity == s.transparency
      ensures pb == old(pb) && running == old(running)
      ensures posX == old(posX) && posY == old(posY) && width == old(width) && height == old(height)
    {
      x, y, scale := s.x, s.y, s.scale;
      showClock, transp := s.showDesktop, s.transparency;
      handColor, secondColor, faceColor := s.colorHands, s.colorSeconds, s.colorFace;
      showSeconds := s.showSeconds;
      opacity := transp;
    }
  }

  // Painting
  // ---------------------------------------------------------------------------

  /** A point on the drawing area, in pixels. */
  datatype Point = Point(x: real, y: real)

  /** The hand tips `get_coords` computes; how is not part of this model. */
  datatype HandTips = HandTips(hour: Point, minute: Point, second: Point)

  /** The visible operations `on_draw` performs. The colour of each is the
      string that was last handed to the colour parser before it. */
  datatype DrawOp =
    | FillDisc(colour: string, centre: Point, radius: real)
    | PaintImage(image: Pixbuf)
    | StrokeLine(colour: string, width: real, from: Point, to: Point)

  function Centre(scale: int): Point
  {
    Point(scale as real / 2.0, scale as real / 2.0)
  }

  /** Radius of the dot drawn over the hands' common end. */
  function DotRadius(scale: int): real
  {
    scale as real / 100.0 + 2.0
  }

  /** Line width of the hour and minute hands. */
  function HandWidth(scale: int): (lw: real)
    ensures scale >= 0 ==> lw >= 1.0
  {
    scale as real / 50.0 + 1.0
  }

  /** Line width of the second hand: 1 below scale 210, and from there on
      scale / 70 - 1, which starts at 2. It is never below 1 and never
      strictly between 1 and 2. */
  function SecondHandWidth(scale: int): (lw: real)
    ensures lw >= 1.0
    ensures lw == 1.0 <==> scale < 210
    ensures lw == 1.0 || lw >= 2.0
  {
    if scale as real / 70.0 - 2.0 < 1.0 then 1.0 else scale as real / 70.0 - 1.0
  }

  /** The width jumps from 1 to 2 between scales 209 and 210. */
  lemma SecondHandWidthJump()
    ensures SecondHandWidth(209) == 1.0 && SecondHandWidth(210) == 2.0
  {
  }

  /** A larger clock never gets a thinner second hand. */
  lemma SecondHandWidthMonotone(a: int, b: int)
    requires a <= b
    ensures SecondHandWidth(a) <= SecondHandWidth(b)
  {
  }

  /** The second hand is never wider than the hour and minute hands. */
  lemma SecondHandNoWiderThanHands(scale: int)
    requires scale >= 0
    ensures SecondHandWidth(scale) <= HandWidth(scale)
  {
  }

  /** What `on_draw` paints, in order: the face disc in the face colour, the
      face image, the hour and minute hands in the hand colour, the second
      hand in its own colour when seconds are shown, and the centre dot,
      which is filled with whichever colour was set last. */
  function Paint(w: WindowState, tips: HandTips): (ops: seq<DrawOp>)
    ensures |ops| == if w.showSeconds then 6 else 5
    ensures ops[0] == FillDisc(w.faceColor, Centre(w.scale), (w.scale as real - 2.0) / 2.0)
    ensures ops[1] == PaintImage(w.pb)
    ensures ops[2] == StrokeLine(w.handColor, HandWidth(w.scale), Centre(w.scale), tips.hour)
    ensures ops[3] == StrokeLine(w.handColor, HandWidth(w.scale), Centre(w.scale), tips.minute)
    ensures w.showSeconds ==>
              ops[4] == StrokeLine(w.secondColor, SecondHandWidth(w.scale), Centre(w.scale), tips.second)
    ensures ops[|ops| - 1].FillDisc? && ops[|ops| - 1].centre == Centre(w.scale)
    ensures forall i :: 0 <= i < |ops| && ops[i].StrokeLine? ==>
              ops[i].from == Centre(w.scale) && (w.scale >= 0 ==> ops[i].width >= 1.0)
  {
    var c := Centre(w.scale);
    var face := [
      FillDisc(w.faceColor, c, (w.scale as real - 2.0) / 2.0),
      PaintImage(w.pb),
      StrokeLine(w.handColor, HandWidth(w.scale), c, tips.hour),
      StrokeLine(w.handColor, HandWidth(w.scale), c, tips.minute)
    ];
    var seconds := if w.showSeconds then [StrokeLine(w.secondColor, SecondHandWidth(w.scale), c, tips.second)] else [];
    var dotColour := if w.showSeconds then w.secondColor else w.handColor;
    face + seconds + [FillDisc(dotColour, c, DotRadius(w.scale))]
  }

  /** Turning the second hand off removes its stroke and nothing else; the
      centre dot, painted after it, then takes the hand colour instead of
      the second-hand colour. */
  lemma SecondsToggle(w: WindowState, tips: HandTips)
    ensures var on := Paint(w.(showSeconds := true), tips);
            var off := Paint(w.(showSeconds := false), tips);
            && |on| == |off| + 1
            && off[..4] == on[..4]
            && on[4] == StrokeLine(w.secondColor, SecondHandWidth(w.scale), Centre(w.scale), tips.second)
            && on[5] == FillDisc(w.secondColor, Centre(w.scale), DotRadius(w.scale))
            && off[4] == FillDisc(w.handColor, Centre(w.scale), DotRadius(w.scale))
  {
  }
}
