/** `convert`: a count of seconds shown as a time of day, `H:MM:SS`. */
module Clock {
  import opened Wrappers
  import opened Text

  const SecondsPerDay: int := 24 * 3600

  datatype TimeOfDay = TimeOfDay(hour: nat, minute: nat, second: nat)

  /** The arithmetic of `convert`. The count is first reduced modulo one day;
      Python's `%` and `//` with a positive divisor agree with Dafny's, so a
      negative count lands on the previous day. */
  function TimeOfDayOf(seconds: int): (t: TimeOfDay)
    ensures t.hour < 24 && t.minute < 60 && t.second < 60
    ensures t.hour * 3600 + t.minute * 60 + t.second == seconds % SecondsPerDay
  {
    var s := seconds % SecondsPerDay;
    var hour := s / 3600;
    var rest := s % 3600;
    TimeOfDay(hour, rest / 60, rest % 60)
  }

  /** `"%02d" % n` for `n` below 100: two digits, zero-padded. */
  function Pad2(n: nat): (r: string)
    requires n < 100
    ensures |r| == 2 && IsDigit(r[0]) && IsDigit(r[1])
  {
    [DigitChar(n / 10), DigitChar(n % 10)]
  }

  /** `convert(seconds)`: `"%d:%02d:%02d" % (hour, minutes, seconds)`. */
  function Convert(seconds: int): string {
    var t := TimeOfDayOf(seconds);
    NatToString(t.hour) + ":" + Pad2(t.minute) + ":" + Pad2(t.second)
  }

  /** Reads an `H:MM:SS` text back into seconds since midnight: the
      independent inverse used to state what `Convert` produces. */
  function ParseClock(text: string): Option<int> {
    var f := Split(text, ':');
    if |f| != 3 then None
    else
      match (ParseInt(f[0]), ParseInt(f[1]), ParseInt(f[2]))
      case (Some(h), Some(m), Some(s)) => Some(h * 3600 + m * 60 + s)
      case _ => None
  }

  lemma ParseIntOfPad2(n: nat)
    requires n < 100
    ensures ParseInt(Pad2(n)) == Some(n)
  {
    var r := Pad2(n);
    ParseIntOfDigits(r);
    assert r[1..][0] == r[1] && r[1..][1..] == [];
    assert DigitsValue(0, r) == DigitsValue(DigitValue(r[0]), r[1..]);
    assert DigitsValue(DigitValue(r[0]), r[1..]) == DigitsValue(10 * DigitValue(r[0]) + DigitValue(r[1]), []);
  }

  /** The three fields `convert` writes for a time of day. */
  function ClockFields(t: TimeOfDay): seq<string>
    requires t.minute < 60 && t.second < 60
  {
    [NatToString(t.hour), Pad2(t.minute), Pad2(t.second)]
  }

  lemma ConvertIsJoin(seconds: int)
    ensures Convert(seconds) == Join(ClockFields(TimeOfDayOf(seconds)), ':')
  {
    var fields := ClockFields(TimeOfDayOf(seconds));
    var h, m, sec := fields[0], fields[1], fields[2];
    assert fields[1..] == [m, sec];
    assert [m, sec][1..] == [sec];
    assert Join([m, sec], ':') == m + [':'] + sec;
    assert Join(fields, ':') == h + [':'] + (m + [':'] + sec);
    assert h + [':'] + (m + [':'] + sec) == h + ":" + m + ":" + sec;
  }

  lemma SplitClockFields(t: TimeOfDay)
    requires t.minute < 60 && t.second < 60
    ensures Split(Join(ClockFields(t), ':'), ':') == ClockFields(t)
  {
    var fields := ClockFields(t);
    forall i | 0 <= i < 3
      ensures ':' !in fields[i]
    {
      assert forall k :: 0 <= k < |fields[i]| ==> IsDigit(fields[i][k]);
    }
    SplitJoin(fields, ':');
  }

  lemma ParseClockFields(t: TimeOfDay)
    requires t.hour < 24 && t.minute < 60 && t.second < 60
    ensures ParseClock(Join(ClockFields(t), ':')) == Some(t.hour * 3600 + t.minute * 60 + t.second)
  {
    var fields := ClockFields(t);
    SplitClockFields(t);
    assert IntToString(t.hour) == fields[0];
    assert |NatToString(t.hour)| <= 2 by {
      if t.hour >= 10 {
        assert NatToString(t.hour) == NatToString(t.hour / 10) + [DigitChar(t.hour % 10)];
        assert |NatToString(t.hour / 10)| == 1;
      }
    }
    ParseIntOfIntToString(t.hour);
    ParseIntOfPad2(t.minute);
    ParseIntOfPad2(t.second);
    ParseClockOfFields(Join(fields, ':'), fields, t.hour, t.minute, t.second);
  }

  lemma ParseClockOfFields(text: string, fields: seq<string>, h: int, m: int, s: int)
    requires Split(text, ':') == fields && |fields| == 3
    requires ParseInt(fields[0]) == Some(h) && ParseInt(fields[1]) == Some(m) && ParseInt(fields[2]) == Some(s)
    ensures ParseClock(text) == Some(h * 3600 + m * 60 + s)
  {
  }

  /** The text `convert` produces reads back as the time of day it stands for. */
  lemma ConvertRoundTrip(seconds: int)
    ensures ParseClock(Convert(seconds)) == Some(seconds % SecondsPerDay)
  {
    var t := TimeOfDayOf(seconds);
    var total := t.hour * 3600 + t.minute * 60 + t.second;
    assert total == seconds % SecondsPerDay;
    ConvertIsJoin(seconds);
    ParseClockFields(t);
    assert ParseClock(Convert(seconds)) == Some(total);
  }

  /** `convert` writes one or two hour digits, a colon, two minute digits, a
      colon and two second digits. */
  lemma ConvertShape(seconds: int)
    ensures var r := Convert(seconds);
            && (|r| == 7 || |r| == 8)
            && r[|r| - 3] == ':' && r[|r| - 6] == ':'
            && forall i :: 0 <= i < |r| && i != |r| - 3 && i != |r| - 6 ==> IsDigit(r[i])
  {
    var t := TimeOfDayOf(seconds);
    var h := NatToString(t.hour);
    if t.hour >= 10 {
      assert h == NatToString(t.hour / 10) + [DigitChar(t.hour % 10)];
    }
    assert |h| == 1 || |h| == 2;
  }
}
