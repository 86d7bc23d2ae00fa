/** The telemetry side of `show_live_data`: decoding one response line, and
    the sequence of poll cycles up to the operator's interrupt. */
module Telemetry {
  import opened Wrappers
  import opened Text
  import opened Floats
  import opened Protocol

  datatype Status = Disabled | Active | OutOfRegulation

  /** One decoded telemetry line, in the instrument's integer units. */
  datatype Reading = Reading(
    status: Status,
    temperature: int,  // field 2, tenths of a degree Celsius
    voltage1: int,     // field 3, millivolts
    voltage2: int,     // field 4, millivolts
    voltage3: int,     // field 5, millivolts
    current: int,      // field 6, milliamps
    mode: Mode)        // the mode in effect, shown beside the reading

  /** What one poll cycle yields. `Malformed` is a nine-field line with a
      measurement that `int()` rejects (`ValueError`) or that is too large to
      scale as a float (`OverflowError`); `show_live_data` catches neither. */
  datatype Poll = NoResponse | Unexpected | Sample(reading: Reading) | Malformed

  const FieldCount: nat := 9

  /** The status code in field 0. */
  function StatusOf(code: string): (s: Status)
    ensures s == Disabled <==> code == "D"
    ensures s == Active <==> code == "A"
  {
    if code == "D" then Disabled else if code == "A" then Active else OutOfRegulation
  }

  /** One poll's response, as `readline` returned it (already decoded to text). */
  function DecodeLine(raw: string, mode: Mode): Poll {
    if raw == [] then NoResponse
    else
      var fields := Split(RStrip(raw), ',');
      if |fields| != FieldCount then Unexpected else DecodeFields(fields, mode)
  }

  /** The nine fields of a well-shaped line. Fields 1, 7 and 8 are not read;
      fields 2 to 6 are read with `int()`, left to right, and each is then
      scaled by a float for display. */
  function DecodeFields(fields: seq<string>, mode: Mode): Poll
    requires |fields| == FieldCount
  {
    match ParseInts(fields[2..7])
    case Some(v) =>
      if AllFitFloat(v) then Sample(Reading(StatusOf(fields[0]), v[0], v[1], v[2], v[3], v[4], mode))
      else Malformed
    case None => Malformed
  }

  predicate AllFitFloat(values: seq<int>) {
    forall k :: 0 <= k < |values| ==> FitsFloat(values[k])
  }

  /** `int()` applied to each text in turn; None as soon as one is rejected. */
  function ParseInts(texts: seq<string>): (r: Option<seq<int>>)
    ensures r.Some? ==> |r.value| == |texts|
    ensures r.Some? ==> forall k :: 0 <= k < |texts| ==> ParseInt(texts[k]) == Some(r.value[k])
    ensures r.None? ==> exists k :: 0 <= k < |texts| && ParseInt(texts[k]).None?
  {
    if texts == [] then Some([])
    else
      match (ParseInt(texts[0]), ParseInts(texts[1..]))
      case (Some(n), Some(rest)) => Some([n] + rest)
      case _ => None
  }

  /** Only an empty read is "no response". */
  lemma DecodeSilence(raw: string, mode: Mode)
    ensures DecodeLine(raw, mode) == NoResponse <==> raw == []
  {
  }

  /** A response is "unexpected" exactly when, stripped of trailing white
      space, it does not have the eight commas of nine fields. */
  lemma DecodeWrongShape(raw: string, mode: Mode)
    ensures DecodeLine(raw, mode) == Unexpected <==> raw != [] && Count(RStrip(raw), ',') != FieldCount - 1
  {
    if raw != [] && Count(RStrip(raw), ',') == FieldCount - 1 {
      assert DecodeLine(raw, mode) == DecodeFields(Split(RStrip(raw), ','), mode);
    }
  }

  /** The measurement in one field cannot be shown: it is not an integer,
      or it is one that a float cannot hold. */
  predicate BadNumber(text: string) {
    ParseInt(text).None? || !FitsFloat(ParseInt(text).value)
  }

  /** Some measurement field (2 to 6) cannot be shown. */
  predicate BadMeasurement(fields: seq<string>)
    requires |fields| == FieldCount
  {
    exists k :: 2 <= k <= 6 && BadNumber(fields[k])
  }

  lemma DecodeFieldsBad(fields: seq<string>, mode: Mode)
    requires |fields| == FieldCount
    ensures DecodeFields(fields, mode) == Malformed <==> BadMeasurement(fields)
  {
    var m := fields[2..7];
    var r := ParseInts(m);
    if r.None? {
      var k :| 0 <= k < |m| && ParseInt(m[k]).None?;
      assert m[k] == fields[k + 2];
    } else {
      forall k | 2 <= k <= 6
        ensures ParseInt(fields[k]) == Some(r.value[k - 2])
      {
        assert fields[k] == m[k - 2];
      }
      if !AllFitFloat(r.value) {
        var k :| 0 <= k < |r.value| && !FitsFloat(r.value[k]);
        assert BadNumber(fields[k + 2]);
      }
    }
  }

  /** A nine-field response fails exactly when some measurement is not an
      integer or is too large for a float. */
  lemma DecodeBadNumber(raw: string, mode: Mode)
    requires raw != [] && |Split(RStrip(raw), ',')| == FieldCount
    ensures DecodeLine(raw, mode) == Malformed <==> BadMeasurement(Split(RStrip(raw), ','))
  {
    DecodeFieldsBad(Split(RStrip(raw), ','), mode);
  }

  lemma NumberHasNoComma(i: int)
    ensures ',' !in IntToString(i)
  {
    var r := IntToString(i);
    if i < 0 {
      assert forall k :: 1 <= k < |r| ==> IsDigit(r[k]) by { assert r[1..] == NatToString(-i); }
    }
  }

  /** Stripping a line ending off text that does not itself end in white space. */
  lemma {:induction false} RStripEnding(s: string, ending: string)
    requires s == [] || !IsSpace(s[|s| - 1])
    requires forall k :: 0 <= k < |ending| ==> IsSpace(ending[k])
    ensures RStrip(s + ending) == s
  {
    if ending != [] {
      var e := ending[..|ending| - 1];
      assert (s + ending)[..|s + ending| - 1] == s + e;
      RStripEnding(s, e);
    } else {
      assert s + ending == s;
    }
  }

  lemma {:induction false} JoinLast(fields: seq<string>, sep: char)
    requires |fields| >= 2
    ensures var j := Join(fields, sep);
            |j| >= 1 && (if fields[|fields| - 1] == [] then j[|j| - 1] == sep
                         else j[|j| - 1] == fields[|fields| - 1][|fields[|fields| - 1]| - 1])
  {
    if |fields| > 2 {
      JoinLast(fields[1..], sep);
    } else {
      assert fields[1..] == [fields[1]];
    }
  }

  lemma DeviceLineSplits(fields: seq<string>, ending: string)
    requires |fields| == FieldCount
    requires forall k :: 0 <= k < |fields| ==> ',' !in fields[k]
    requires fields[8] == [] || !IsSpace(fields[8][|fields[8]| - 1])
    requires forall k :: 0 <= k < |ending| ==> IsSpace(ending[k])
    ensures Join(fields, ',') + ending != []
    ensures Split(RStrip(Join(fields, ',') + ending), ',') == fields
  {
    var j := Join(fields, ',');
    SplitJoin(fields, ',');
    JoinLast(fields, ',');
    RStripEnding(j, ending);
  }

  /** Texts that each read as the matching value read as the whole list. */
  lemma {:induction false} ParseIntsOf(texts: seq<string>, values: seq<int>)
    requires |texts| == |values|
    requires forall k :: 0 <= k < |texts| ==> ParseInt(texts[k]) == Some(values[k])
    ensures ParseInts(texts) == Some(values)
  {
    if texts != [] {
      ParseIntsOf(texts[1..], values[1..]);
      assert ParseInt(texts[0]) == Some(values[0]);
      assert [values[0]] + values[1..] == values;
    }
  }

  lemma ParseMeasurements(fields: seq<string>, values: seq<int>)
    requires |fields| == FieldCount && |values| == 5 && AllFitFloat(values)
    requires forall k :: 0 <= k < 5 ==> fields[k + 2] == IntToString(values[k])
    ensures ParseInts(fields[2..7]) == Some(values)
  {
    var texts := fields[2..7];
    forall k | 0 <= k < 5
      ensures ParseInt(texts[k]) == Some(values[k])
    {
      assert texts[k] == fields[k + 2];
      FitsFloatDigits(values[k]);
      ParseIntOfIntToString(values[k]);
    }
    ParseIntsOf(texts, values);
  }

  /** A line the instrument sends (nine comma-free fields of which fields 2
      to 6 are the decimal texts of `values`, each small enough for a float,
      then any line ending) decodes to exactly those values, whatever the
      protocol fields 1, 7 and 8 hold. */
  lemma DecodeDeviceLine(fields: seq<string>, values: seq<int>, ending: string, mode: Mode)
    requires |fields| == FieldCount && |values| == 5 && AllFitFloat(values)
    requires forall k :: 0 <= k < 5 ==> fields[k + 2] == IntToString(values[k])
    requires ',' !in fields[0] && ',' !in fields[1] && ',' !in fields[7] && ',' !in fields[8]
    requires fields[8] == [] || !IsSpace(fields[8][|fields[8]| - 1])
    requires forall k :: 0 <= k < |ending| ==> IsSpace(ending[k])
    ensures DecodeLine(Join(fields, ',') + ending, mode)
            == Sample(Reading(StatusOf(fields[0]), values[0], values[1], values[2], values[3], values[4], mode))
  {
    DeviceFieldsHaveNoComma(fields, values);
    DeviceLineSplits(fields, ending);
    ParseMeasurements(fields, values);
    DecodeSplitLine(Join(fields, ',') + ending, fields, values, mode);
  }

  lemma DeviceFieldsHaveNoComma(fields: seq<string>, values: seq<int>)
    requires |fields| == FieldCount && |values| == 5
    requires forall k :: 0 <= k < 5 ==> fields[k + 2] == IntToString(values[k])
    requires ',' !in fields[0] && ',' !in fields[1] && ',' !in fields[7] && ',' !in fields[8]
    ensures forall k :: 0 <= k < |fields| ==> ',' !in fields[k]
  {
    forall k | 0 <= k < FieldCount
      ensures ',' !in fields[k]
    {
      if 2 <= k <= 6 {
        NumberHasNoComma(values[k - 2]);
      }
    }
  }

  lemma DecodeSplitLine(raw: string, fields: seq<string>, values: seq<int>, mode: Mode)
    requires raw != [] && Split(RStrip(raw), ',') == fields && |fields| == FieldCount
    requires |values| == 5 && AllFitFloat(values) && ParseInts(fields[2..7]) == Some(values)
    ensures DecodeLine(raw, mode)
            == Sample(Reading(StatusOf(fields[0]), values[0], values[1], values[2], values[3], values[4], mode))
  {
  }

  /** Two nine-field lines that differ only in fields 1, 7 and 8 decode alike. */
  lemma DecodeIgnoresProtocolFields(a: seq<string>, b: seq<string>, mode: Mode)
    requires |a| == FieldCount && |b| == FieldCount
    requires a[0] == b[0] && a[2..7] == b[2..7]
    ensures DecodeFields(a, mode) == DecodeFields(b, mode)
  {
  }

  /** The result of each poll, in order: each reply decoded in the mode in effect. */
  function Decoded(replies: seq<string>, mode: Mode): (polls: seq<Poll>)
    ensures |polls| == |replies|
  {
    if replies == [] then []
    else Decoded(replies[..|replies| - 1], mode) + [DecodeLine(replies[|replies| - 1], mode)]
  }

  /** Poll `k` is reply `k` decoded. */
  lemma {:induction false} DecodedAt(replies: seq<string>, mode: Mode, k: nat)
    requires k < |replies|
    ensures Decoded(replies, mode)[k] == DecodeLine(replies[k], mode)
  {
    var n := |replies| - 1;
    var front := Decoded(replies[..n], mode);
    var last := DecodeLine(replies[n], mode);
    assert Decoded(replies, mode) == front + [last];
    if k < n {
      DecodedAt(replies[..n], mode, k);
      assert replies[..n][k] == replies[k];
      assert (front + [last])[k] == front[k];
    }
  }

  /** Decoding the first `n` replies gives the first `n` polls. */
  lemma {:induction false} DecodedPrefix(replies: seq<string>, mode: Mode, n: nat)
    requires n <= |replies|
    ensures Decoded(replies, mode)[..n] == Decoded(replies[..n], mode)
    decreases |replies|
  {
    if n < |replies| {
      var m := |replies| - 1;
      DecodedPrefix(replies[..m], mode, n);
      assert replies[..m][..n] == replies[..n];
      assert Decoded(replies, mode)[..n] == Decoded(replies[..m], mode)[..n];
    } else {
      assert replies[..n] == replies;
    }
  }

  /** The outcome of `show_live_data` when its polls yield `polls`, one per
      cycle, before the operator interrupts: the results shown, the number of
      cycles run (each writes one telemetry request), and whether a malformed
      line ended it with an exception. */
  datatype LiveResult = LiveResult(shown: seq<Poll>, cycles: nat, failed: bool)

  function LiveData(polls: seq<Poll>): (r: LiveResult)
    ensures r.cycles <= |polls|
    ensures r.failed ==> 1 <= r.cycles
    ensures |r.shown| == if r.failed then r.cycles - 1 else r.cycles
  {
    if polls == [] then LiveResult([], 0, false)
    else if polls[0].Malformed? then LiveResult([], 1, true)
    else
      var rest := LiveData(polls[1..]);
      LiveResult([polls[0]] + rest.shown, rest.cycles + 1, rest.failed)
  }

  /** Live data shows every poll's result in order until the first malformed
      line, which ends the loop; only a malformed line ends it before the
      polls run out. An empty or unexpected response is shown and polling
      goes on. */
  lemma {:induction false} LiveDataPolls(polls: seq<Poll>)
    ensures var r := LiveData(polls);
            && r.shown == polls[..|r.shown|]
            && (forall k :: 0 <= k < |r.shown| ==> !r.shown[k].Malformed?)
            && (r.failed ==> polls[r.cycles - 1].Malformed?)
            && (r.failed <==> exists k :: 0 <= k < |polls| && polls[k].Malformed?)
            && (!r.failed ==> r.cycles == |polls|)
  {
    if polls != [] && !polls[0].Malformed? {
      var rest := LiveData(polls[1..]);
      LiveDataPolls(polls[1..]);
      var r := LiveData(polls);
      assert r.shown == [polls[0]] + rest.shown;
      assert polls[..|r.shown|] == [polls[0]] + polls[1..][..|rest.shown|];
      if r.failed {
        assert polls[1..][rest.cycles - 1] == polls[r.cycles - 1];
        var k :| 0 <= k < |polls[1..]| && polls[1..][k].Malformed?;
        assert polls[k + 1] == polls[1..][k];
      } else {
        forall k | 0 <= k < |polls|
          ensures !polls[k].Malformed?
        {
          if k > 0 {
            assert polls[1..][k - 1] == polls[k];
          }
        }
      }
    }
  }

  /** When no poll is malformed, every result is shown and polling runs
      until the operator interrupts. */
  lemma {:induction false} LiveDataAllShown(polls: seq<Poll>)
    requires forall k :: 0 <= k < |polls| ==> !polls[k].Malformed?
    ensures LiveData(polls) == LiveResult(polls, |polls|, false)
  {
    if polls != [] {
      LiveDataAllShown(polls[1..]);
      assert [polls[0]] + polls[1..] == polls;
    }
  }

  /** The first malformed poll ends live data: the results before it are
      shown, and its cycle is the last. */
  lemma {:induction false} LiveDataFirstMalformed(polls: seq<Poll>, i: nat)
    requires i < |polls| && polls[i].Malformed?
    requires forall k :: 0 <= k < i ==> !polls[k].Malformed?
    ensures LiveData(polls) == LiveResult(polls[..i], i + 1, true)
  {
    if i > 0 {
      LiveDataFirstMalformed(polls[1..], i - 1);
      assert [polls[0]] + polls[1..][..i - 1] == polls[..i];
    }
  }

  /** A read that returns nothing is shown as no response, and the next
      cycle follows. */
  lemma SilenceContinues(replies: seq<string>, mode: Mode)
    requires replies != [] && replies[0] == []
    ensures var r := LiveData(Decoded(replies, mode));
            var rest := LiveData(Decoded(replies[1..], mode));
            && r.shown == [NoResponse] + rest.shown
            && r.cycles == rest.cycles + 1 && r.failed == rest.failed
  {
    DecodedTail(replies, mode);
    DecodedAt(replies, mode, 0);
  }

  /** Dropping the first reply drops the first poll. */
  lemma {:induction false} DecodedTail(replies: seq<string>, mode: Mode)
    requires replies != []
    ensures Decoded(replies, mode)[1..] == Decoded(replies[1..], mode)
  {
    var polls := Decoded(replies, mode);
    var tail := Decoded(replies[1..], mode);
    forall k | 0 <= k < |tail|
      ensures polls[1..][k] == tail[k]
    {
      DecodedAt(replies, mode, k + 1);
      DecodedAt(replies[1..], mode, k);
    }
  }
}
