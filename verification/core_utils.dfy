/**
 * core/utils.go: blank-string test and the millisecond-timestamp to
 * `YYYYMMDD` conversion used as the partition date of every log row.
 * The conversion formats in UTC.
 */
module CoreUtils {
  import opened Base
  import opened GoStrings
  import opened Civil

  /** `StrIsEmpty`: the string trims to nothing. */
  function StrIsEmpty(s: string): (b: bool)
    ensures b <==> AllSpace(s)
  {
    TrimSpaceEmptyIffAllSpace(s);
    TrimSpace(s) == ""
  }

  /** Day number of 1970-01-01 counted from 0001-01-01. */
  const EpochDay: int := 719162

  lemma EpochDayIsNewYear1970()
    ensures ValidDate(Date(1970, 1, 1)) && DayNumber(Date(1970, 1, 1)) == EpochDay
  {
  }

  /** Whether `ts * 1e6` nanoseconds fits in int64, so no wrap-around occurs. */
  predicate NanosFit(ts: int) {
    -0x8000_0000_0000_0000 <= ts * 1_000_000 < 0x8000_0000_0000_0000
  }

  /** Days since 1970-01-01 of the instant `time.Unix(0, ts*1e6)`: the
      int64 product wraps, then seconds and days are floored. */
  function InstantDay(ts: Int64): (day: int)
    ensures -106752 <= day <= 106751
    ensures NanosFit(ts) ==> day == ts / 86_400_000
  {
    var ns := WrapInt64(ts * 1_000_000);
    var sec := ns / 1_000_000_000;
    sec / 86400
  }

  /** `ToYYYYMMDD`: eight digits naming the UTC civil date of the instant. */
  function ToYYYYMMDD(ts: Int64): (r: string)
    ensures |r| == 8 && forall i :: 0 <= i < 8 ==> Strconv.IsDigit(r[i])
    ensures ValidDate(ParseYYYYMMDD(r))
    ensures DayNumber(ParseYYYYMMDD(r)) == EpochDay + InstantDay(ts)
  {
    DayString(InstantDay(ts))
  }

  /** Rendering of the UTC date `day` days after 1970-01-01. */
  function DayString(day: int): (r: string)
    requires -106752 <= day <= 106751
    ensures |r| == 8 && forall i :: 0 <= i < 8 ==> Strconv.IsDigit(r[i])
    ensures ValidDate(ParseYYYYMMDD(r))
    ensures DayNumber(ParseYYYYMMDD(r)) == EpochDay + day
  {
    var d := DateOf(EpochDay + day);
    assert 1601 <= d.year <= 2400;
    YYYYMMDD(d)
  }

  /** Without wrap-around the rendered date is day `ts / 86400000` after 1970-01-01. */
  lemma ToYYYYMMDDIsCivilDay(ts: Int64)
    requires NanosFit(ts)
    ensures DayNumber(ParseYYYYMMDD(ToYYYYMMDD(ts))) == EpochDay + ts / 86_400_000
  {
  }

  /** Timestamps of the same UTC day render equally. */
  lemma SameDaySameDate(ts1: Int64, ts2: Int64)
    requires NanosFit(ts1) && NanosFit(ts2)
    requires ts1 / 86_400_000 == ts2 / 86_400_000
    ensures ToYYYYMMDD(ts1) == ToYYYYMMDD(ts2)
  {
    assert InstantDay(ts1) == InstantDay(ts2);
  }

  /** A later UTC day renders as a lexicographically greater string. */
  lemma LaterDayGreaterDate(ts1: Int64, ts2: Int64)
    requires NanosFit(ts1) && NanosFit(ts2)
    requires ts1 / 86_400_000 < ts2 / 86_400_000
    ensures LexLess(ToYYYYMMDD(ts1), ToYYYYMMDD(ts2))
  {
    assert InstantDay(ts1) < InstantDay(ts2);
    LaterInstantDayGreaterDate(ts1, ts2);
  }

  lemma LaterInstantDayGreaterDate(ts1: Int64, ts2: Int64)
    requires InstantDay(ts1) < InstantDay(ts2)
    ensures LexLess(ToYYYYMMDD(ts1), ToYYYYMMDD(ts2))
  {
    DayOrderRenders(InstantDay(ts1), InstantDay(ts2));
  }

  lemma DayOrderRenders(day1: int, day2: int)
    requires -106752 <= day1 < day2 <= 106751
    ensures LexLess(DayString(day1), DayString(day2))
  {
    DayNumberOrderRenders(EpochDay + day1, EpochDay + day2);
    DayStringUnfold(day1);
    DayStringUnfold(day2);
  }

  lemma DayStringUnfold(day: int)
    requires -106752 <= day <= 106751
    ensures 4 <= (EpochDay + day) / 146097 <= 5
    ensures DayString(day) == YYYYMMDD(DateOf(EpochDay + day))
  {
  }

  lemma DayNumberOrderRenders(n1: int, n2: int)
    requires 4 * 146097 <= n1 < n2 < 6 * 146097
    ensures LexLess(YYYYMMDD(DateOf(n1)), YYYYMMDD(DateOf(n2)))
  {
    DateOfMonotone(n1, n2);
    RenderMonotone(DateOf(n1), DateOf(n2));
  }

  /** The sample row of the log table: 1588842127114 is 2020-05-07. */
  lemma SampleTimestamp()
    ensures ToYYYYMMDD(1588842127114) == "20200507"
  {
    SampleInstantDay();
    SampleDate();
    SampleRender();
    assert DayString(18389) == "20200507";
  }

  lemma SampleInstantDay()
    ensures InstantDay(1588842127114) == 18389
  {
  }

  lemma SampleDate()
    ensures DateOf(EpochDay + 18389) == Date(2020, 5, 7)
  {
    assert IsLeap(2020);
    assert MonthOf(2020, 127, 12) == MonthOf(2020, 127, 11) == MonthOf(2020, 127, 10)
        == MonthOf(2020, 127, 9) == MonthOf(2020, 127, 8) == MonthOf(2020, 127, 7)
        == MonthOf(2020, 127, 6) == MonthOf(2020, 127, 5) == 5;
  }

  lemma SampleRender()
    ensures YYYYMMDD(Date(2020, 5, 7)) == "20200507"
  {
    assert Pad2(20) == "20";
    assert Pad4(2020) == "2020";
    assert Pad2(5) == "05";
    assert Pad2(7) == "07";
  }
}
