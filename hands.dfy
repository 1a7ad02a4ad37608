/** The integer half of `get_coords` in desktop-clock.py: turning the time of
    day into three "units" on a dial of 720 units (half a degree each), where
    unit 0 points at three o'clock and the units run clockwise on screen. The
    projection of a unit onto the circle with cos/sin is not part of this
    model. */
module ClockHands {

  /** One full turn of the dial. */
  const UnitsPerTurn: int := 720
  /** The quarter turn subtracted so that twelve o'clock lands on unit 540. */
  const QuarterTurn: int := 180
  /** Units the minute hand moves per minute, and the second hand per second. */
  const UnitsPerStep: int := 12

  /** A reading of the local clock, as `datetime.now()` gives it. */
  datatype ClockTime = ClockTime(hour: int, minute: int, second: int)

  predicate ValidTime(t: ClockTime)
  {
    0 <= t.hour < 24 && 0 <= t.minute < 60 && 0 <= t.second < 60
  }

  /** The three dial positions `get_coords` feeds to cos/sin. */
  datatype HandUnits = HandUnits(hour: int, minute: int, second: int)

  /** Hours above 12 lose 12; 0 and 12 are both kept as they are. */
  function TwelveHour(hour: int): (h: int)
    requires 0 <= hour < 24
    ensures 0 <= h <= 12
    ensures h % 12 == hour % 12
    ensures h == 0 <==> hour == 0
    ensures h == 12 <==> hour == 12
  {
    if hour > 12 then hour - 12 else hour
  }

  /** Subtract a quarter turn and add one turn if the result is negative.
      That single wrap is exact (agrees with reduction modulo a turn) precisely
      when the shifted value lies in [-720, 720). */
  function Recentre(v: int): (u: int)
    ensures -UnitsPerTurn <= v - QuarterTurn < UnitsPerTurn
            <==> u == (v - QuarterTurn) % UnitsPerTurn
    ensures -UnitsPerTurn <= v - QuarterTurn < UnitsPerTurn ==> 0 <= u < UnitsPerTurn
  {
    var shifted := v - QuarterTurn;
    if shifted < 0 then shifted + UnitsPerTurn else shifted
  }

  /** The hour hand moves continuously: one unit per minute. */
  function HourUnit(hour: int, minute: int): (u: int)
    requires 0 <= hour < 24 && 0 <= minute < 60
    ensures 0 <= u < UnitsPerTurn
  {
    Recentre(TwelveHour(hour) * 60 + minute)
  }

  /** The minute and second hands are stepped: twelve units per whole
      minute or second. */
  function StepUnit(count: int): (u: int)
    requires 0 <= count < 60
    ensures 0 <= u < UnitsPerTurn
    ensures u % UnitsPerStep == 0
  {
    Recentre(count * UnitsPerStep)
  }

  /** All three hands for one clock reading. */
  function Units(t: ClockTime): (u: HandUnits)
    requires ValidTime(t)
    ensures 0 <= u.hour < UnitsPerTurn && 0 <= u.minute < UnitsPerTurn && 0 <= u.second < UnitsPerTurn
  {
    HandUnits(HourUnit(t.hour, t.minute), StepUnit(t.minute), StepUnit(t.second))
  }

  /** The hour unit is the clock position (60 units an hour, one a minute,
      counted from twelve) shifted back a quarter turn, modulo a turn. */
  lemma {:induction false} HourUnitClosedForm(hour: int, minute: int)
    requires 0 <= hour < 24 && 0 <= minute < 60
    ensures HourUnit(hour, minute) == (60 * (hour % 12) + minute - QuarterTurn) % UnitsPerTurn
  {
    var h := TwelveHour(hour);
    if h == 12 {
      assert hour % 12 == 0;
    } else {
      assert h == hour % 12;
    }
  }

  /** The minute and second units are twelve per step, shifted back a
      quarter turn, modulo a turn. */
  lemma StepUnitClosedForm(n: int)
    requires 0 <= n < 60
    ensures StepUnit(n) == (UnitsPerStep * n - QuarterTurn) % UnitsPerTurn
  {
  }

  /** Midnight and noon put the hour hand in the same place, 540 + minute. */
  lemma MidnightAndNoonAgree(minute: int)
    requires 0 <= minute < 60
    ensures HourUnit(0, minute) == HourUnit(12, minute) == 540 + minute
  {
  }

  /** An afternoon hour shows like the morning hour twelve earlier. */
  lemma AfternoonRepeatsMorning(hour: int, minute: int)
    requires 1 <= hour <= 11 && 0 <= minute < 60
    ensures HourUnit(hour + 12, minute) == HourUnit(hour, minute)
  {
  }

  /** Unit 0 is three o'clock and unit 540 is twelve o'clock; at 00:00:00 and
      at 12:00:00 all three hands point to twelve. */
  lemma LandmarkTimes()
    ensures HourUnit(3, 0) == 0 && HourUnit(9, 0) == 360
    ensures Units(ClockTime(0, 0, 0)) == HandUnits(540, 540, 540)
    ensures Units(ClockTime(12, 0, 0)) == HandUnits(540, 540, 540)
  {
  }

  /** The minute hand does not move between whole minutes. */
  lemma MinuteHandIsStepped(t1: ClockTime, t2: ClockTime)
    requires ValidTime(t1) && ValidTime(t2)
    requires t1.minute == t2.minute
    ensures Units(t1).minute == Units(t2).minute
  {
  }

  /** The reading one minute after `t` (seconds left as they are). */
  function NextMinute(t: ClockTime): (n: ClockTime)
    requires ValidTime(t)
    ensures ValidTime(n)
  {
    if t.minute < 59 then t.(minute := t.minute + 1)
    else t.(hour := (t.hour + 1) % 24, minute := 0)
  }

  /** Counted in minutes since midnight, the next reading is one later,
      wrapping at the end of the day. */
  lemma NextMinuteCounts(t: ClockTime)
    requires ValidTime(t)
    ensures 60 * NextMinute(t).hour + NextMinute(t).minute == (60 * t.hour + t.minute + 1) % (24 * 60)
  {
  }

  /** One minute on the twelve-hour count moves the recentred unit one
      forward: the count steps by one, or wraps 12:59 -> 1:00 (779 -> 60) or
      11:59 -> 0:00 (719 -> 0). */
  lemma RecentreNext(before: int, after: int)
    requires 0 <= before <= 779
    requires (after == before + 1 && after <= 779) || (before == 779 && after == 60)
             || (before == 719 && after == 0)
    ensures Recentre(after) == (Recentre(before) + 1) % UnitsPerTurn
  {
  }

  /** Across every minute of the day, midnight and noon included, the hour
      hand moves forward exactly one unit. */
  lemma {:induction false} HourHandAdvancesEachMinute(t: ClockTime)
    requires ValidTime(t)
    ensures Units(NextMinute(t)).hour == (Units(t).hour + 1) % UnitsPerTurn
  {
    var n := NextMinute(t);
    var before := TwelveHour(t.hour) * 60 + t.minute;
    var after := TwelveHour(n.hour) * 60 + n.minute;
    if t.minute < 59 {
      assert n.hour == t.hour;
      RecentreNext(before, after);
    } else if t.hour == 12 {
      RecentreNext(779, 60);
    } else if t.hour == 23 {
      RecentreNext(719, 0);
    } else {
      assert after == before + 1;
      RecentreNext(before, after);
    }
  }

  /** Every minute, the hour included, the minute hand moves one step. */
  lemma {:induction false} MinuteHandAdvancesEachMinute(t: ClockTime)
    requires ValidTime(t)
    ensures Units(NextMinute(t)).minute == (Units(t).minute + UnitsPerStep) % UnitsPerTurn
  {
    var n := NextMinute(t);
    assert Units(t).minute == Recentre(t.minute * UnitsPerStep);
    assert Units(n).minute == Recentre(n.minute * UnitsPerStep);
    if t.minute == 59 {
      assert n.minute == 0;
    } else {
      assert n.minute * UnitsPerStep == t.minute * UnitsPerStep + UnitsPerStep;
    }
  }

  /** The second hand moves one step a second, from :59 back round to :00. */
  lemma SecondHandAdvances(second: int)
    requires 0 <= second < 60
    ensures StepUnit((second + 1) % 60) == (StepUnit(second) + UnitsPerStep) % UnitsPerTurn
  {
  }
}
