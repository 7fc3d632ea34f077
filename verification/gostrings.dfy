/**
 * The parts of Go's `strings` package the log collector relies on:
 * `TrimSpace`, `HasPrefix`, `TrimPrefix`, `Split` and `Join` on a
 * one-character separator. Strings are sequences of code points.
 */
module GoStrings {

  /** Go's `unicode.IsSpace`: ASCII white space, NEL, NBSP and the
      Unicode White_Space characters above Latin-1. */
  predicate IsSpace(c: char) {
    || c == ' '
    || ('\t' <= c <= '\r')
    || c == '\U{0085}' || c == '\U{00A0}' || c == '\U{1680}'
    || ('\U{2000}' <= c <= '\U{200A}')
    || c == '\U{2028}' || c == '\U{2029}' || c == '\U{202F}'
    || c == '\U{205F}' || c == '\U{3000}'
  }

  predicate AllSpace(s: string) {
    forall i :: 0 <= i < |s| ==> IsSpace(s[i])
  }

  /** Drops leading white space. */
  function TrimLeftSpace(s: string): (r: string)
    ensures |r| <= |s| && r == s[|s| - |r|..]
    ensures AllSpace(s[..|s| - |r|])
    ensures |r| > 0 ==> !IsSpace(r[0])
  {
    if |s| > 0 && IsSpace(s[0]) then TrimLeftSpace(s[1..]) else s
  }

  /** Drops trailing white space. */
  function TrimRightSpace(s: string): (r: string)
    ensures |r| <= |s| && r == s[..|r|]
    ensures AllSpace(s[|r|..])
    ensures |r| > 0 ==> !IsSpace(r[|r| - 1])
  {
    if |s| > 0 && IsSpace(s[|s| - 1]) then TrimRightSpace(s[..|s| - 1]) else s
  }

  /** Go's `strings.TrimSpace`: an infix of `s` with no white space at
      either end; it is empty exactly when `s` is all white space. */
  function TrimSpace(s: string): (r: string)
    ensures |r| <= |s|
    ensures r == "" <==> AllSpace(s)
    ensures |r| > 0 ==> !IsSpace(r[0]) && !IsSpace(r[|r| - 1])
  {
    TrimSpaceEmptyIffAllSpace(s);
    TrimRightSpace(TrimLeftSpace(s))
  }

  lemma TrimSpaceEmptyIffAllSpace(s: string)
    ensures TrimRightSpace(TrimLeftSpace(s)) == "" <==> AllSpace(s)
  {
    if AllSpace(s) {
      AllSpaceTrimLeft(s);
    } else {
      var k :| 0 <= k < |s| && !IsSpace(s[k]);
      var j := NonSpaceSurvivesLeft(s, k);
      NonSpaceSurvivesRight(TrimLeftSpace(s), j);
    }
  }

  lemma {:induction false} AllSpaceTrimLeft(s: string)
    requires AllSpace(s)
    ensures TrimLeftSpace(s) == ""
    decreases |s|
  {
    if |s| > 0 {
      assert AllSpace(s[1..]);
      AllSpaceTrimLeft(s[1..]);
    }
  }

  /** A non-space character is kept by `TrimLeftSpace`, at index `j`. */
  lemma {:induction false} NonSpaceSurvivesLeft(s: string, k: nat) returns (j: nat)
    requires k < |s| && !IsSpace(s[k])
    ensures j < |TrimLeftSpace(s)| && !IsSpace(TrimLeftSpace(s)[j])
    decreases |s|
  {
    if IsSpace(s[0]) {
      j := NonSpaceSurvivesLeft(s[1..], k - 1);
    } else {
      j := k;
    }
  }

  lemma {:induction false} NonSpaceSurvivesRight(s: string, k: nat)
    requires k < |s| && !IsSpace(s[k])
    ensures |TrimRightSpace(s)| > k
    decreases |s|
  {
    if IsSpace(s[|s| - 1]) {
      NonSpaceSurvivesRight(s[..|s| - 1], k);
    }
  }

  predicate HasPrefix(s: string, prefix: string) {
    |prefix| <= |s| && s[..|prefix|] == prefix
  }

  /** Go's `strings.TrimPrefix`: removes one copy of `prefix` if `s` starts with it. */
  function TrimPrefix(s: string, prefix: string): (r: string)
    ensures HasPrefix(s, prefix) ==> prefix + r == s
    ensures !HasPrefix(s, prefix) ==> r == s
  {
    if HasPrefix(s, prefix) then s[|prefix|..] else s
  }

  /** Number of occurrences of `c` in `s`. */
  function Count(s: string, c: char): nat {
    if s == [] then 0 else (if s[0] == c then 1 else 0) + Count(s[1..], c)
  }

  lemma {:induction false} CountAppend(a: string, b: string, c: char)
    ensures Count(a + b, c) == Count(a, c) + Count(b, c)
    decreases |a|
  {
    if a != [] {
      assert (a + b)[1..] == a[1..] + b;
      CountAppend(a[1..], b, c);
    } else {
      assert a + b == b;
    }
  }

  /** Index of the first `c` in `s`, or `|s|` when there is none. */
  function IndexOf(s: string, c: char): (i: nat)
    ensures i <= |s|
    ensures i < |s| ==> s[i] == c
    ensures forall j :: 0 <= j < i ==> s[j] != c
  {
    if s == [] then 0 else if s[0] == c then 0 else 1 + IndexOf(s[1..], c)
  }

  /** Go's `strings.Split(s, sep)` for a one-character separator: the
      pieces between separators, always one more than the separators. */
  function Split(s: string, sep: char): (parts: seq<string>)
    ensures |parts| == Count(s, sep) + 1
    ensures forall k :: 0 <= k < |parts| ==> sep !in parts[k]
    decreases |s|
  {
    var i := IndexOf(s, sep);
    if i == |s| then
      NoSepCount(s, sep);
      [s]
    else
      var tail := Split(s[i + 1..], sep);
      assert s == s[..i] + ([sep] + s[i + 1..]);
      CountAppend(s[..i], [sep] + s[i + 1..], sep);
      NoSepCount(s[..i], sep);
      assert ([sep] + s[i + 1..])[1..] == s[i + 1..];
      [s[..i]] + tail
  }

  lemma {:induction false} NoSepCount(s: string, c: char)
    requires forall j :: 0 <= j < |s| ==> s[j] != c
    ensures Count(s, c) == 0
    decreases |s|
  {
    if s != [] {
      NoSepCount(s[1..], c);
    }
  }

  /** Go's `strings.Join`. */
  function Join(parts: seq<string>, sep: string): (r: string)
    ensures |parts| == 1 ==> r == parts[0]
    decreases |parts|
  {
    if |parts| == 0 then ""
    else if |parts| == 1 then parts[0]
    else parts[0] + sep + Join(parts[1..], sep)
  }

  /** Joining the pieces of a split with the same separator gives back the string. */
  lemma {:induction false} JoinSplit(s: string, sep: char)
    ensures Join(Split(s, sep), [sep]) == s
    decreases |s|
  {
    var i := IndexOf(s, sep);
    if i < |s| {
      var tail := Split(s[i + 1..], sep);
      var parts := Split(s, sep);
      assert parts == [s[..i]] + tail;
      assert parts[1..] == tail;
      assert Join(parts, [sep]) == s[..i] + [sep] + Join(tail, [sep]);
      JoinSplit(s[i + 1..], sep);
      assert s == s[..i] + [sep] + s[i + 1..];
    }
  }

  /** The first piece of a split is everything before the first separator,
      and the remaining pieces joined back are everything after it. */
  lemma SplitHeadTail(s: string, sep: char)
    requires sep in s
    ensures |Split(s, sep)| >= 2
    ensures Split(s, sep)[0] == s[..IndexOf(s, sep)]
    ensures Join(Split(s, sep)[1..], [sep]) == s[IndexOf(s, sep) + 1..]
  {
    var i := IndexOf(s, sep);
    assert i < |s| by {
      var k :| 0 <= k < |s| && s[k] == sep;
    }
    JoinSplit(s[i + 1..], sep);
  }

  /** The last piece of a split is empty exactly when the string is empty or ends with the separator. */
  lemma SplitLastEmpty(s: string, sep: char)
    ensures var parts := Split(s, sep);
      parts[|parts| - 1] == "" <==> s == [] || s[|s| - 1] == sep
  {
    var parts := Split(s, sep);
    var last := parts[|parts| - 1];
    JoinSplit(s, sep);
    assert sep !in last;
    if |parts| == 1 {
      assert s == last;
    } else {
      var init := parts[..|parts| - 1];
      assert parts == init + [last];
      JoinSnoc(init, last, [sep]);
      if last != "" {
        assert s[|s| - 1] == last[|last| - 1];
      }
    }
  }

  /** Joining with one more piece appends the separator and that piece. */
  lemma {:induction false} JoinSnoc(parts: seq<string>, x: string, sep: string)
    requires parts != []
    ensures Join(parts + [x], sep) == Join(parts, sep) + sep + x
    decreases |parts|
  {
    if |parts| == 1 {
      assert parts + [x] == [parts[0], x];
    } else {
      assert (parts + [x])[1..] == parts[1..] + [x];
      JoinSnoc(parts[1..], x, sep);
    }
  }
}
