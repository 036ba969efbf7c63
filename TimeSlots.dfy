/** The time buttons of the booking page: one every 15 minutes from 09:00 up to, not
    including, 17:00. Each button carries a 24-hour `HH:MM` time (`data-time`) and a
    12-hour `h:mm AM`/`h:mm PM` label (`data-time12`). */
module TimeSlots {
  import opened JsText

  /** The first hour offered (9 AM). */
  const StartHour: nat := 9
  /** The hour the day ends (5 PM), itself not offered. */
  const EndHour: nat := 17
  /** How many buttons the page shows: four per hour, at minutes 0, 15, 30 and 45 (the
      literals 4 and 15 below are these two numbers). */
  const SlotCount: nat := (EndHour - StartHour) * 4

  /** The two strings a time button carries. */
  datatype Slot = Slot(time24: string, time12: string)

  /** The hour on a 12-hour clock face, as the page computes it. */
  function Hour12(hour: nat): nat {
    if hour > 12 then hour - 12 else hour
  }

  /** `PM` from noon on, `AM` before. */
  function Meridiem(hour: nat): string {
    if hour >= 12 then "PM" else "AM"
  }

  /** The padded 24-hour time `HH:MM` of `hour:minute`. */
  function Label24(hour: nat, minute: nat): string {
    PadStart2(Decimal(hour)) + ":" + PadStart2(Decimal(minute))
  }

  /** The 12-hour label `h:mm AM` or `h:mm PM` of `hour:minute`, its hour unpadded. */
  function Label12(hour: nat, minute: nat): string {
    Decimal(Hour12(hour)) + ":" + PadStart2(Decimal(minute)) + " " + Meridiem(hour)
  }

  /** The button for `hour:minute`. */
  function MakeSlot(hour: nat, minute: nat): Slot {
    Slot(Label24(hour, minute), Label12(hour, minute))
  }

  /** The hour of the `k`-th button: the first four are at 9, and each later group of four
      is one hour after the group before it. */
  function SlotHour(k: nat): nat {
    if k < 4 then StartHour else SlotHour(k - 4) + 1
  }

  /** The minute of the `k`-th button: 0, 15, 30, 45 within each group of four. */
  function SlotMinute(k: nat): nat {
    if k < 4 then 15 * k else SlotMinute(k - 4)
  }

  /** Button `k` is at hour `9 + k / 4` and minute `15 * (k % 4)`. */
  lemma {:induction false} SlotHourMinute(k: nat)
    ensures SlotHour(k) == StartHour + k / 4 && SlotMinute(k) == 15 * (k % 4)
  {
    if k >= 4 {
      SlotHourMinute(k - 4);
    }
  }

  /** The `k`-th button. */
  function SlotAt(k: nat): Slot {
    MakeSlot(SlotHour(k), SlotMinute(k))
  }

  /** All buttons, in the order the page appends them. */
  function SlotTable(): seq<Slot> {
    seq(SlotCount, k requires 0 <= k => SlotAt(k))
  }

  /** The button appended in pass `j` of the minute loop within the hour `hour`. */
  lemma {:induction false} SlotIndex(hour: nat, j: nat)
    requires StartHour <= hour < EndHour && j < 4
    ensures 4 * (hour - StartHour) + j < SlotCount
    ensures SlotHour(4 * (hour - StartHour) + j) == hour
    ensures SlotMinute(4 * (hour - StartHour) + j) == 15 * j
  {
    if hour > StartHour {
      SlotIndex(hour - 1, j);
    }
  }

  /** Appending entry `k` of a table to its first `k` entries gives its first `k + 1`. */
  lemma ExtendPrefix(table: seq<Slot>, slots: seq<Slot>, k: nat)
    requires k < |table| && slots == table[..k]
    ensures slots + [table[k]] == table[..k + 1]
  {
    assert table[..k + 1] == table[..k] + [table[k]];
  }

  /** Entry `k` of the table is the button for its hour and minute. */
  lemma SlotTableEntry(k: nat)
    requires k < SlotCount
    ensures SlotTable()[k] == MakeSlot(SlotHour(k), SlotMinute(k))
  {
    assert SlotTable()[k] == SlotAt(k);
  }

  /** `generateTimeSlots()`: the hour loop runs over 9..16 and the minute loop over
      0, 15, 30, 45; each pass appends one button. */
  method GenerateTimeSlots() returns (slots: seq<Slot>)
    ensures slots == SlotTable()
  {
    slots := [];
    var hour := StartHour;
    while hour < EndHour
      invariant StartHour <= hour <= EndHour
      invariant slots == SlotTable()[..4 * (hour - StartHour)]
    {
      var minute := 0;
      ghost var j := 0;
      while minute < 60
        invariant j <= 4 && minute == 15 * j
        invariant slots == SlotTable()[..4 * (hour - StartHour) + j]
      {
        SlotIndex(hour, j);
        SlotTableEntry(4 * (hour - StartHour) + j);
        ExtendPrefix(SlotTable(), slots, 4 * (hour - StartHour) + j);
        slots := slots + [MakeSlot(hour, minute)];
        minute := minute + 15;
        j := j + 1;
      }
      hour := hour + 1;
    }
    assert SlotTable()[..SlotCount] == SlotTable();
  }

  /** Minutes since midnight denoted by a 24-hour `HH:MM` string (two hour digits, a colon,
      two minute digits), if it is one. */
  function ParseTime24(s: string): Option<nat> {
    if |s| == 5 && IsDigit(s[0]) && IsDigit(s[1]) && s[2] == ':' && IsDigit(s[3]) && IsDigit(s[4]) then
      var hour := 10 * DigitValue(s[0]) + DigitValue(s[1]);
      var minute := 10 * DigitValue(s[3]) + DigitValue(s[4]);
      if hour < 24 && minute < 60 then Some(hour * 60 + minute) else None
    else None
  }

  /** The hour of the day of a 12-hour clock reading. */
  function Clock12(hour: nat, pm: bool): nat {
    (if hour == 12 then 0 else hour) + (if pm then 12 else 0)
  }

  /** Minutes since midnight denoted by a 12-hour label, if it is one: an hour from 1 to 12
      written without a leading zero, a colon, two minute digits, a space, then `AM` or `PM`.
      12 AM is midnight and 12 PM is noon. */
  function ParseTime12(s: string): Option<nat> {
    var n := |s|;
    if (n == 7 || n == 8) && IsDigit(s[0]) && (n == 8 ==> s[0] != '0' && IsDigit(s[1]))
       && s[n - 6] == ':' && IsDigit(s[n - 5]) && IsDigit(s[n - 4]) && s[n - 3] == ' '
       && (s[n - 2] == 'A' || s[n - 2] == 'P') && s[n - 1] == 'M' then
      var hour := if n == 7 then DigitValue(s[0]) else 10 * DigitValue(s[0]) + DigitValue(s[1]);
      var minute := 10 * DigitValue(s[n - 5]) + DigitValue(s[n - 4]);
      var offset := if s[n - 2] == 'P' then 12 else 0;
      if 1 <= hour <= 12 && minute < 60 then Some(((if hour == 12 then 0 else hour) + offset) * 60 + minute)
      else None
    else None
  }

  /** How `ParseTime24` reads four digits around a colon. */
  lemma ReadTime24(h1: nat, h0: nat, m1: nat, m0: nat)
    requires h1 < 10 && h0 < 10 && m1 < 10 && m0 < 10
    requires 10 * h1 + h0 < 24 && 10 * m1 + m0 < 60
    ensures ParseTime24([DigitChar(h1), DigitChar(h0), ':', DigitChar(m1), DigitChar(m0)])
         == Some((10 * h1 + h0) * 60 + 10 * m1 + m0)
  {
  }

  /** The minutes and meridiem that end a 12-hour label. */
  function Tail12(m1: nat, m0: nat, pm: bool): string
    requires m1 < 10 && m0 < 10
  {
    [':', DigitChar(m1), DigitChar(m0), ' ', if pm then 'P' else 'A', 'M']
  }

  /** How `ParseTime12` reads a one-digit hour. */
  lemma ReadTime12OneDigit(h: nat, m1: nat, m0: nat, pm: bool)
    requires 1 <= h < 10 && m1 < 10 && m0 < 10 && 10 * m1 + m0 < 60
    ensures ParseTime12([DigitChar(h)] + Tail12(m1, m0, pm)) == Some(Clock12(h, pm) * 60 + 10 * m1 + m0)
  {
    var s := [DigitChar(h)] + Tail12(m1, m0, pm);
    assert s[1] == ':' && s[2] == DigitChar(m1) && s[3] == DigitChar(m0);
    assert s[4] == ' ' && s[5] == (if pm then 'P' else 'A') && s[6] == 'M';
  }

  /** How `ParseTime12` reads a two-digit hour (10 to 12). */
  lemma ReadTime12TwoDigits(h0: nat, m1: nat, m0: nat, pm: bool)
    requires h0 <= 2 && m1 < 10 && m0 < 10 && 10 * m1 + m0 < 60
    ensures ParseTime12([DigitChar(1), DigitChar(h0)] + Tail12(m1, m0, pm))
         == Some(Clock12(10 + h0, pm) * 60 + 10 * m1 + m0)
  {
    var s := [DigitChar(1), DigitChar(h0)] + Tail12(m1, m0, pm);
    assert s[2] == ':' && s[3] == DigitChar(m1) && s[4] == DigitChar(m0);
    assert s[5] == ' ' && s[6] == (if pm then 'P' else 'A') && s[7] == 'M';
  }

  /** The 24-hour string of a button denotes its hour and minute. */
  lemma Time24Denotes(hour: nat, minute: nat)
    requires hour < 24 && minute < 60
    ensures ParseTime24(Label24(hour, minute)) == Some(hour * 60 + minute)
  {
    PadDecimalBelow100(hour);
    PadDecimalBelow100(minute);
    assert Label24(hour, minute)
        == [DigitChar(hour / 10), DigitChar(hour % 10), ':', DigitChar(minute / 10), DigitChar(minute % 10)];
    ReadTime24(hour / 10, hour % 10, minute / 10, minute % 10);
  }

  /** A 12-hour label is the unpadded hour followed by the minutes and the meridiem. */
  lemma Label12Pieces(hour: nat, minute: nat)
    requires minute < 60
    ensures Label12(hour, minute) == Decimal(Hour12(hour)) + Tail12(minute / 10, minute % 10, hour >= 12)
  {
    PadDecimalBelow100(minute);
  }

  /** The clock face gives the hour of the day back: `Hour12` with the meridiem loses nothing. */
  lemma Clock12Hour(hour: nat)
    requires 1 <= hour < 24
    ensures 1 <= Hour12(hour) <= 12 && Clock12(Hour12(hour), hour >= 12) == hour
  {
  }

  /** The label of an hour whose clock-face hour has one digit. */
  lemma Time12DenotesOneDigit(hour: nat, minute: nat)
    requires 1 <= hour < 24 && minute < 60 && Hour12(hour) < 10
    ensures ParseTime12(Label12(hour, minute)) == Some(hour * 60 + minute)
  {
    Clock12Hour(hour);
    Label12Pieces(hour, minute);
    assert Decimal(Hour12(hour)) == [DigitChar(Hour12(hour))];
    ReadTime12OneDigit(Hour12(hour), minute / 10, minute % 10, hour >= 12);
  }

  /** The label of an hour whose clock-face hour is 10, 11 or 12. */
  lemma Time12DenotesTwoDigits(hour: nat, minute: nat)
    requires 1 <= hour < 24 && minute < 60 && Hour12(hour) >= 10
    ensures ParseTime12(Label12(hour, minute)) == Some(hour * 60 + minute)
  {
    Clock12Hour(hour);
    Label12Pieces(hour, minute);
    DecimalTeens(Hour12(hour));
    ReadTime12TwoDigits(Hour12(hour) - 10, minute / 10, minute % 10, hour >= 12);
  }

  /** The 12-hour label of a button denotes the same time of day as its 24-hour string,
      for every hour from 1 to 23 (13:00 is "1:00 PM", 12:15 is "12:15 PM"). */
  lemma Time12Denotes(hour: nat, minute: nat)
    requires 1 <= hour < 24 && minute < 60
    ensures ParseTime12(Label12(hour, minute)) == Some(hour * 60 + minute)
  {
    if Hour12(hour) < 10 {
      Time12DenotesOneDigit(hour, minute);
    } else {
      Time12DenotesTwoDigits(hour, minute);
    }
  }

  /** The hour and minute of the `k`-th button, and the time of day they make. */
  lemma {:induction false} SlotClock(k: nat)
    requires k < SlotCount
    ensures StartHour <= SlotHour(k) < EndHour && SlotMinute(k) in {0, 15, 30, 45}
    ensures SlotHour(k) * 60 + SlotMinute(k) == StartHour * 60 + 15 * k
  {
    if k >= 4 {
      SlotClock(k - 4);
    }
  }

  /** The hour and minute of the `k`-th button, named, with its 24-hour string. */
  lemma SlotTime24(k: nat) returns (hour: nat, minute: nat)
    requires k < SlotCount
    ensures StartHour <= hour < EndHour && minute < 60
    ensures hour * 60 + minute == StartHour * 60 + 15 * k
    ensures SlotTable()[k].time24 == Label24(hour, minute)
  {
    hour, minute := SlotHour(k), SlotMinute(k);
    SlotClock(k);
    SlotTableEntry(k);
  }

  /** The hour and minute of the `k`-th button, named, with its 12-hour label. */
  lemma SlotTime12(k: nat) returns (hour: nat, minute: nat)
    requires k < SlotCount
    ensures StartHour <= hour < EndHour && minute < 60
    ensures hour * 60 + minute == StartHour * 60 + 15 * k
    ensures SlotTable()[k].time12 == Label12(hour, minute)
  {
    hour, minute := SlotHour(k), SlotMinute(k);
    SlotClock(k);
    SlotTableEntry(k);
  }

  /** The 24-hour string of the `k`-th button denotes 09:00 plus `15 * k` minutes. */
  lemma Slot24Denotes(k: nat)
    requires k < SlotCount
    ensures ParseTime24(SlotTable()[k].time24) == Some(StartHour * 60 + 15 * k)
  {
    var hour, minute := SlotTime24(k);
    Time24Denotes(hour, minute);
  }

  /** The 12-hour label of the `k`-th button denotes 09:00 plus `15 * k` minutes. */
  lemma Slot12Denotes(k: nat)
    requires k < SlotCount
    ensures ParseTime12(SlotTable()[k].time12) == Some(StartHour * 60 + 15 * k)
  {
    var hour, minute := SlotTime12(k);
    Time12Denotes(hour, minute);
  }

  /** The buttons are in strictly increasing time order. */
  lemma SlotsIncreasing(i: nat, j: nat)
    requires i < j < SlotCount
    ensures ParseTime24(SlotTable()[i].time24).Some? && ParseTime24(SlotTable()[j].time24).Some?
    ensures ParseTime24(SlotTable()[i].time24).value < ParseTime24(SlotTable()[j].time24).value
  {
    Slot24Denotes(i);
    Slot24Denotes(j);
  }

  /** A minute below 60 on a quarter hour is quarter `j` of its hour. */
  lemma QuarterOf(minute: nat) returns (j: nat)
    requires minute < 60 && minute % 15 == 0
    ensures j < 4 && minute == 15 * j
  {
    j := minute / 15;
  }

  /** Every quarter hour from 09:00 to 16:45 has its button. */
  lemma EveryQuarterHourOffered(hour: nat, minute: nat) returns (k: nat)
    requires StartHour <= hour < EndHour && minute < 60 && minute % 15 == 0
    ensures k < SlotCount && SlotTable()[k] == MakeSlot(hour, minute)
  {
    var j := QuarterOf(minute);
    k := 4 * (hour - StartHour) + j;
    SlotIndex(hour, j);
    SlotTableEntry(k);
  }
}
