/**
 * utils.go: the main package's own copies of the blank-string test and
 * the date conversion, written the same way as those of core/utils.go.
 */
module Utils {
  import opened Base
  import opened GoStrings
  import Civil
  import Strconv
  import CoreUtils

  /** `strIsEmpty`: the trimmed string is empty. */
  function StrIsEmpty(s: string): (b: bool)
    ensures b <==> AllSpace(s)
  {
    TrimSpace(s) == ""
  }

  /** One character that is not white space makes a string non-empty. */
  lemma NonSpaceNotEmpty(s: string, i: nat)
    requires i < |s| && !IsSpace(s[i])
    ensures !StrIsEmpty(s)
  {
  }

  /** `toYYYYMMDD`: eight digits naming the UTC date of the millisecond timestamp. Its text is
      core/utils.go's, so it is defined by that copy. */
  function ToYYYYMMDD(ts: Int64): (r: string)
    ensures |r| == 8 && forall i :: 0 <= i < 8 ==> Strconv.IsDigit(r[i])
    ensures Civil.ValidDate(Civil.ParseYYYYMMDD(r))
    ensures Civil.DayNumber(Civil.ParseYYYYMMDD(r)) == CoreUtils.EpochDay + CoreUtils.InstantDay(ts)
  {
    CoreUtils.ToYYYYMMDD(ts)
  }

  /** The two copies behave alike on every input. */
  lemma AgreesWithCore(s: string, ts: Int64)
    ensures StrIsEmpty(s) == CoreUtils.StrIsEmpty(s)
    ensures ToYYYYMMDD(ts) == CoreUtils.ToYYYYMMDD(ts)
  {
  }
}
