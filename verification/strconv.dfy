/**
 * The parts of Go's `strconv` package the collector uses: `Atoi`,
 * `ParseInt(s, 10, 64)`, `ParseBool`, and decimal formatting as done by
 * `fmt.Sprintf("%d", n)`. `int` is 64 bits wide, so `Atoi` accepts
 * exactly what `ParseInt(s, 10, 64)` accepts.
 */
module Strconv {
  import opened Base

  const MaxUint64: int := 0xffff_ffff_ffff_ffff

  datatype NumErrorKind = ErrSyntax | ErrRange

  /** Go's `*strconv.NumError`: the function that failed, its input, the reason. */
  datatype NumError = NumError(fn: string, num: string, kind: NumErrorKind)

  predicate IsDigit(c: char) {
    '0' <= c <= '9'
  }

  function DigitValue(c: char): (d: nat)
    requires IsDigit(c)
    ensures d <= 9
  {
    c as int - '0' as int
  }

  function DigitChar(d: nat): (c: char)
    requires d <= 9
    ensures IsDigit(c) && DigitValue(c) == d
  {
    ('0' as int + d) as char
  }

  /** The unsigned scan of `ParseUint(s, 10, 64)` over a digit string, left
      to right: the first non-digit is a syntax error, and a prefix whose
      value exceeds 2^64-1 is a range error, whichever comes first. Written
      over the last character so that the first failing prefix decides. */
  function ScanDigits(s: string): (r: Result<nat, NumErrorKind>)
    ensures r.Ok? ==> r.value <= MaxUint64
    ensures r.Ok? ==> forall i :: 0 <= i < |s| ==> IsDigit(s[i])
    decreases |s|
  {
    if |s| == 0 then Ok(0)
    else
      match ScanDigits(s[..|s| - 1])
      case Err(k) => Err(k)
      case Ok(n) =>
        var c := s[|s| - 1];
        if !IsDigit(c) then Err(ErrSyntax)
        else if n * 10 + DigitValue(c) > MaxUint64 then Err(ErrRange)
        else Ok(n * 10 + DigitValue(c))
  }

  /** Go's `strconv.ParseUint(s, 10, 64)` error kinds and value. */
  function ParseUint(s: string): Result<nat, NumErrorKind> {
    if s == "" then Err(ErrSyntax) else ScanDigits(s)
  }

  /** Go's `strconv.ParseInt(s, 10, 64)`, with the error tagged by `fn`
      (`"ParseInt"`, or `"Atoi"` when reached through `Atoi`). */
  function ParseIntAs(fn: string, s: string): (r: Result<Int64, NumError>)
    ensures r.Err? ==> r.error.fn == fn && r.error.num == s
    ensures s == "" ==> r == Err(NumError(fn, s, ErrSyntax))
  {
    if s == "" then Err(NumError(fn, s, ErrSyntax))
    else
      var neg := s[0] == '-';
      var body := if s[0] == '+' || s[0] == '-' then s[1..] else s;
      match ParseUint(body)
      case Err(ErrSyntax) => Err(NumError(fn, s, ErrSyntax))
      case Err(ErrRange) => Err(NumError(fn, s, ErrRange))
      case Ok(u) =>
        if !neg && u >= 0x8000_0000_0000_0000 then Err(NumError(fn, s, ErrRange))
        else if neg && u > 0x8000_0000_0000_0000 then Err(NumError(fn, s, ErrRange))
        else
          var v: Int64 := if neg then 0 - (u as int) else u;
          Ok(v)
  }

  /** `strconv.ParseInt(s, 10, 64)`: its errors name "ParseInt" and carry the input. */
  function ParseInt(s: string): (r: Result<Int64, NumError>)
    ensures r.Err? ==> r.error.fn == "ParseInt" && r.error.num == s
    ensures s == "" ==> r.Err? && r.error.kind == ErrSyntax
  {
    ParseIntAs("ParseInt", s)
  }

  /**
   * `strconv.Atoi` on a 64-bit `int`: the same value as `ParseInt`, and the
   * same error except that it names "Atoi".
   */
  function Atoi(s: string): (r: Result<Int64, NumError>)
    ensures r.Ok? <==> ParseInt(s).Ok?
    ensures r.Ok? ==> r.value == ParseInt(s).value
    ensures r.Err? ==> r.error == ParseInt(s).error.(fn := "Atoi")
  {
    ParseIntAs("Atoi", s)
  }

  /** Go's `strconv.ParseBool`. On failure Go returns `false` beside the error. */
  function ParseBool(s: string): (r: Result<bool, NumError>)
    ensures r.Ok? && r.value ==> s in {"1", "t", "T", "TRUE", "true", "True"}
    ensures r.Ok? && !r.value ==> s in {"0", "f", "F", "FALSE", "false", "False"}
    ensures r.Err? <==> s !in {"1", "t", "T", "TRUE", "true", "True", "0", "f", "F", "FALSE", "false", "False"}
  {
    if s in {"1", "t", "T", "TRUE", "true", "True"} then Ok(true)
    else if s in {"0", "f", "F", "FALSE", "false", "False"} then Ok(false)
    else Err(NumError("ParseBool", s, ErrSyntax))
  }

  /** `NumError.Error()`: "strconv.<fn>: parsing "<num>": <reason>"; the input is
      quoted without the escaping `strconv.Quote` applies to unprintable characters. */
  function ErrorText(e: NumError): (t: string)
    ensures HasText(t, "strconv." + e.fn + ": parsing ")
  {
    "strconv." + e.fn + ": parsing " + "\"" + e.num + "\": "
      + (if e.kind == ErrSyntax then "invalid syntax" else "value out of range")
  }

  predicate HasText(t: string, prefix: string) {
    |prefix| <= |t| && t[..|prefix|] == prefix
  }

  /** Decimal digits of a natural number, most significant first, no padding. */
  function NatDigits(n: nat): (s: string)
    ensures |s| >= 1
    ensures forall i :: 0 <= i < |s| ==> IsDigit(s[i])
  {
    if n < 10 then [DigitChar(n)] else NatDigits(n / 10) + [DigitChar(n % 10)]
  }

  /** `fmt.Sprintf("%d", n)`. */
  function FormatInt(n: int): (s: string)
    ensures |s| >= 1
    ensures n >= 0 ==> s == NatDigits(n)
    ensures n < 0 ==> s == "-" + NatDigits(-n)
  {
    if n < 0 then "-" + NatDigits(-n) else NatDigits(n)
  }

  lemma {:induction false} ScanNatDigits(n: nat)
    requires n <= MaxUint64
    ensures ScanDigits(NatDigits(n)) == Ok(n)
  {
    if n >= 10 {
      var s := NatDigits(n);
      assert s[..|s| - 1] == NatDigits(n / 10);
      ScanNatDigits(n / 10);
    }
  }

  /** Parsing the decimal text of any int64 gives the number back. */
  lemma ParseFormatRoundTrip(n: Int64)
    ensures ParseInt(FormatInt(n)) == Ok(n)
    ensures Atoi(FormatInt(n)) == Ok(n)
  {
    var s := FormatInt(n);
    var m: int := n;
    if m < 0 {
      assert s[1..] == NatDigits(-m);
      ScanNatDigits(-m);
    } else {
      ScanNatDigits(n);
    }
  }

  /** Any text with a character other than a digit after the optional sign fails. */
  lemma {:induction false} NonDigitIsSyntaxError(s: string, i: nat)
    requires 0 < i < |s| && !IsDigit(s[i])
    requires s[0] == '+' || s[0] == '-' || IsDigit(s[0])
    ensures ParseInt(s).Err?
  {
    var body := if s[0] == '+' || s[0] == '-' then s[1..] else s;
    var j := if s[0] == '+' || s[0] == '-' then i - 1 else i;
    assert body[j] == s[i];
  }
}
