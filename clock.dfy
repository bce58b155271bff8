/**
 * Times of day as the appointment code writes them: the strict `HH:MM` rule of the
 * controller and of the booking validator, the looser rule of the appointment schema,
 * and the fixed daily template of bookable slots.
 */
module Clock {

  import opened Wrappers

  /** `\d` in a JavaScript regular expression without the `u` flag. */
  predicate IsDigit(c: char) {
    '0' <= c <= '9'
  }

  function DigitValue(c: char): nat
    requires IsDigit(c)
  {
    (c as int) - ('0' as int)
  }

  function DigitChar(n: nat): (c: char)
    requires n < 10
    ensures IsDigit(c) && DigitValue(c) == n
  {
    (('0' as int) + n) as char
  }

  /** `([01]\d|2[0-3])`: a two-digit hour. */
  predicate IsHourPair(a: char, b: char) {
    ((a == '0' || a == '1') && IsDigit(b)) || (a == '2' && '0' <= b <= '3')
  }

  /** `([0-5]\d)`: a two-digit minute. */
  predicate IsMinutePair(a: char, b: char) {
    '0' <= a <= '5' && IsDigit(b)
  }

  /** `/^([01]\d|2[0-3]):([0-5]\d)$/`, the controller's `isValidTimeFormat`. */
  predicate IsValidTimeFormat(s: string) {
    |s| == 5 && IsHourPair(s[0], s[1]) && s[2] == ':' && IsMinutePair(s[3], s[4])
  }

  /** `/^([01]?[0-9]|2[0-3]):[0-5][0-9]$/`, the `match` rule of the appointment schema. */
  predicate IsSchemaTime(s: string) {
    || (|s| == 4 && IsDigit(s[0]) && s[1] == ':' && IsMinutePair(s[2], s[3]))
    || (|s| == 5 && IsHourPair(s[0], s[1]) && s[2] == ':' && IsMinutePair(s[3], s[4]))
  }

  /** `n.toString().padStart(2, '0')` for a number below 100. */
  function Pad2(n: nat): (r: string)
    requires n < 100
  {
    [DigitChar(n / 10), DigitChar(n % 10)]
  }

  /** The `HH:MM` text of hour `h` and minute `m`. */
  function ClockTime(h: nat, m: nat): (r: string)
    requires h < 100 && m < 100
  {
    Pad2(h) + ":" + Pad2(m)
  }

  /**
   * Reads an `HH:MM` text: it succeeds exactly on the texts the strict rule accepts, and
   * then gives an hour below 24 and a minute below 60 that print back to the same text.
   */
  function ParseClock(s: string): (r: Option<(nat, nat)>)
    ensures r.Some? <==> IsValidTimeFormat(s)
    ensures r.Some? ==> r.value.0 < 24 && r.value.1 < 60 && ClockTime(r.value.0, r.value.1) == s
  {
    if IsValidTimeFormat(s) then
      var h := 10 * DigitValue(s[0]) + DigitValue(s[1]);
      var m := 10 * DigitValue(s[3]) + DigitValue(s[4]);
      assert h / 10 == DigitValue(s[0]) && h % 10 == DigitValue(s[1]);
      assert m / 10 == DigitValue(s[3]) && m % 10 == DigitValue(s[4]);
      Some((h, m))
    else None
  }

  /** Every hour 0-23 with every minute 0-59 prints to an accepted text that reads back the same. */
  lemma ClockTimeRoundTrip(h: nat, m: nat)
    requires h < 24 && m < 60
    ensures IsValidTimeFormat(ClockTime(h, m))
    ensures ParseClock(ClockTime(h, m)) == Some((h, m))
  {
    var s := ClockTime(h, m);
    assert DigitValue(s[0]) == h / 10 && DigitValue(s[1]) == h % 10;
    assert DigitValue(s[3]) == m / 10 && DigitValue(s[4]) == m % 10;
    assert IsHourPair(s[0], s[1]) by {
      if h >= 20 { assert h / 10 == 2 && h % 10 <= 3; }
    }
  }

  /** Minutes since midnight of an accepted time. */
  function MinutesOf(s: string): nat
    requires IsValidTimeFormat(s)
  {
    var hm := ParseClock(s).value;
    60 * hm.0 + hm.1
  }

  /**
   * The schema's rule is looser than the strict one: it accepts every strictly valid time,
   * and besides exactly the one-digit-hour texts that become strictly valid with a leading zero.
   */
  lemma SchemaTimeIsLooser(s: string)
    ensures IsSchemaTime(s) <==> IsValidTimeFormat(s) || IsValidTimeFormat("0" + s)
    ensures IsSchemaTime("9:30") && !IsValidTimeFormat("9:30")
  {
    if |s| == 4 {
      var p := "0" + s;
      assert p[1..] == s;
    }
  }

  /** Position of a time text on the clock: minutes since midnight, and -1 for text that is not a valid time. */
  function TimeRank(s: string): int {
    if IsValidTimeFormat(s) then MinutesOf(s) else -1
  }

  /** Strictly ascending by time of day. */
  predicate Ascending(slots: seq<string>) {
    forall i, j :: 0 <= i < j < |slots| ==> TimeRank(slots[i]) < TimeRank(slots[j])
  }

  /** The bookable slots of a day: 09:00 to 16:30 in 30-minute steps. */
  function SlotTemplate(): seq<string> {
    seq(16, k requires 0 <= k < 16 => ClockTime(9 + k / 2, 30 * (k % 2)))
  }

  /** The slot after the first `2 * (hour - 9) + minute / 30` ones is `hour:minute`. */
  lemma SlotTemplateStep(hour: nat, minute: nat)
    requires 9 <= hour < 17 && (minute == 0 || minute == 30)
    ensures SlotTemplate()[..2 * (hour - 9) + minute / 30 + 1]
      == SlotTemplate()[..2 * (hour - 9) + minute / 30] + [ClockTime(hour, minute)]
  {
    var k := 2 * (hour - 9) + minute / 30;
    assert k / 2 == hour - 9 && k % 2 == minute / 30;
    assert SlotTemplate()[k] == ClockTime(hour, minute);
    assert SlotTemplate()[..k + 1] == SlotTemplate()[..k] + [SlotTemplate()[k]];
  }

  /** The template has 16 valid slots, ascending by 30 minutes from 09:00. */
  lemma SlotTemplateShape()
    ensures |SlotTemplate()| == 16
    ensures SlotTemplate()[0] == "09:00" && SlotTemplate()[15] == "16:30"
    ensures forall k :: 0 <= k < 16 ==>
      IsValidTimeFormat(SlotTemplate()[k]) && MinutesOf(SlotTemplate()[k]) == 540 + 30 * k
  {
    forall k | 0 <= k < 16
      ensures IsValidTimeFormat(SlotTemplate()[k]) && MinutesOf(SlotTemplate()[k]) == 540 + 30 * k
    {
      ClockTimeRoundTrip(9 + k / 2, 30 * (k % 2));
    }
    ClockTimeRoundTrip(9, 0);
    ClockTimeRoundTrip(16, 30);
  }

  /** The template is strictly ascending, so it repeats no slot. */
  lemma SlotTemplateAscending()
    ensures Ascending(SlotTemplate())
  {
    SlotTemplateShape();
  }

  lemma AscendingTail(xs: seq<string>)
    requires xs != [] && Ascending(xs)
    ensures Ascending(xs[1..])
  {
    forall i, j | 0 <= i < j < |xs[1..]|
      ensures TimeRank(xs[1..][i]) < TimeRank(xs[1..][j])
    {
      assert xs[1..][i] == xs[i + 1] && xs[1..][j] == xs[j + 1];
    }
  }

  /** A time earlier than every time of an ascending list can go in front of it. */
  lemma AscendingCons(x: string, r: seq<string>)
    requires Ascending(r) && forall s :: s in r ==> TimeRank(x) < TimeRank(s)
    ensures Ascending([x] + r)
  {
    var t := [x] + r;
    forall i, j | 0 <= i < j < |t|
      ensures TimeRank(t[i]) < TimeRank(t[j])
    {
      assert t[j] == r[j - 1];
      if i == 0 {
        assert r[j - 1] in r;
      } else {
        assert t[i] == r[i - 1];
      }
    }
  }
}
