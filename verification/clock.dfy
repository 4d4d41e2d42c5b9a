/**
 Clock times as the trip engine reads them: a flight time string "HH:MM",
 possibly carrying a "+1" next-day marker, parsed the way Python's
 `datetime.strptime(s, "%H:%M")` parses it.
 */
module Clock {
  import opened Wrappers

  datatype TimeOfDay = TimeOfDay(hour: int, minute: int)

  predicate ValidTime(t: TimeOfDay) {
    0 <= t.hour <= 23 && 0 <= t.minute <= 59
  }

  /** The time as a fractional hour of the day: hour + minute / 60. */
  function Hours(t: TimeOfDay): real {
    t.hour as real + t.minute as real / 60.0
  }

  predicate IsDigit(ch: char) {
    '0' <= ch <= '9'
  }

  function DigitValue(ch: char): int
    requires IsDigit(ch)
  {
    ch as int - '0' as int
  }

  function DigitChar(d: int): char
    requires 0 <= d <= 9
  {
    ('0' as int + d) as char
  }

  /**
   A `%H` or `%M` field: strptime accepts one digit, or two digits whose
   value is at most `most` (23 for hours, 59 for minutes).
   */
  function Field(s: string, most: int): (r: Option<int>)
    requires most >= 9
    ensures r.Some? ==> 0 <= r.value <= most
  {
    if |s| == 1 && IsDigit(s[0]) then Some(DigitValue(s[0]))
    else if |s| == 2 && IsDigit(s[0]) && IsDigit(s[1])
            && 10 * DigitValue(s[0]) + DigitValue(s[1]) <= most
    then Some(10 * DigitValue(s[0]) + DigitValue(s[1]))
    else None
  }

  function Combine(h: Option<int>, m: Option<int>): Option<TimeOfDay> {
    if h.Some? && m.Some? then Some(TimeOfDay(h.value, m.value)) else None
  }

  /**
   `strptime(s, "%H:%M")`: an hour field, a colon, a minute field and nothing
   after it. The hour field holds no colon, so the first colon splits the string.
   */
  function ParseHourMinute(s: string): (r: Option<TimeOfDay>)
    ensures r.Some? ==> ValidTime(r.value)
  {
    if |s| >= 2 && s[1] == ':' then Combine(Field(s[..1], 23), Field(s[2..], 59))
    else if |s| >= 3 && s[2] == ':' then Combine(Field(s[..2], 23), Field(s[3..], 59))
    else None
  }

  /** Python's `"+1" in s`, scanning from the front. */
  predicate HasNextDayMarker(s: string) {
    |s| >= 2 && ((s[0] == '+' && s[1] == '1') || HasNextDayMarker(s[1..]))
  }

  /** Python's `s.split('+')[0]`: the text before the first '+', or all of `s`. */
  function BeforeFirstPlus(s: string): (r: string)
    ensures r <= s
    ensures '+' !in r
    ensures |r| < |s| ==> s[|r|] == '+'
  {
    if |s| == 0 || s[0] == '+' then []
    else [s[0]] + BeforeFirstPlus(s[1..])
  }

  /**
   `parse_time` inside `calculate_exploration_hours`: a string containing "+1" is cut at its first
   '+'; the next-day flag it also returns is discarded by every caller.
   A malformed string is `None` (strptime's ValueError).
   */
  function ParseTime(s: string): (r: Option<TimeOfDay>)
    ensures r.Some? ==> ValidTime(r.value)
    ensures !HasNextDayMarker(s) ==> r == ParseHourMinute(s)
  {
    if HasNextDayMarker(s) then ParseHourMinute(BeforeFirstPlus(s))
    else ParseHourMinute(s)
  }

  /** The zero-padded "HH:MM" form that strptime's "%H:%M" reads back. */
  function Format(t: TimeOfDay): (s: string)
    requires ValidTime(t)
    ensures |s| == 5 && s[2] == ':'
  {
    [DigitChar(t.hour / 10), DigitChar(t.hour % 10), ':',
     DigitChar(t.minute / 10), DigitChar(t.minute % 10)]
  }

  /** Round trip: every valid time survives formatting and parsing. */
  lemma ParseFormat(t: TimeOfDay)
    requires ValidTime(t)
    ensures ParseTime(Format(t)) == Some(t)
  {
    var s := Format(t);
    assert '+' !in s by {
      assert forall i :: 0 <= i < |s| ==> s[i] != '+';
    }
    NoPlusNoMarker(s);
    assert s[..2] == [s[0], s[1]];
    assert s[3..] == [s[3], s[4]];
    assert DigitValue(s[0]) == t.hour / 10 && DigitValue(s[1]) == t.hour % 10;
    assert DigitValue(s[3]) == t.minute / 10 && DigitValue(s[4]) == t.minute % 10;
  }

  /** A string without '+' holds no "+1". */
  lemma {:induction false} NoPlusNoMarker(s: string)
    requires '+' !in s
    ensures !HasNextDayMarker(s)
  {
    if |s| >= 2 {
      assert s[0] in s;
      assert forall i :: 0 <= i < |s| - 1 ==> s[1..][i] == s[i + 1];
      assert '+' !in s[1..];
      NoPlusNoMarker(s[1..]);
    }
  }

  /** A string ending in "+1" holds "+1". */
  lemma {:induction false} MarkerAtEnd(s: string)
    ensures HasNextDayMarker(s + "+1")
  {
    if |s| > 0 {
      assert (s + "+1")[1..] == s[1..] + "+1";
      MarkerAtEnd(s[1..]);
    } else {
      assert s + "+1" == "+1";
    }
  }

  lemma {:induction false} BeforeFirstPlusOfSuffixed(s: string, t: string)
    requires '+' !in s
    requires |t| > 0 && t[0] == '+'
    ensures BeforeFirstPlus(s + t) == s
  {
    if |s| == 0 {
      assert (s + t)[0] == '+';
    } else {
      assert (s + t)[0] == s[0];
      assert (s + t)[1..] == s[1..] + t;
      BeforeFirstPlusOfSuffixed(s[1..], t);
    }
  }

  /**
   A "+1" next-day suffix never changes the parsed time: the clock time of
   "HH:MM+1" is that of "HH:MM".
   */
  lemma NextDaySuffixIgnored(s: string)
    requires '+' !in s
    ensures ParseTime(s + "+1") == ParseTime(s)
  {
    MarkerAtEnd(s);
    NoPlusNoMarker(s);
    BeforeFirstPlusOfSuffixed(s, "+1");
  }
}
