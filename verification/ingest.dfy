/**
 * The line handling shared by the three revisions of the ingestion
 * handler: a request body is cut into lines the way `bufio.Scanner`
 * with its default `ScanLines` split function cuts it, and each line is
 * either turned into zero or one record or skipped. A skipped line never
 * stops the lines after it.
 */
module Ingest {
  import opened Base
  import opened GoStrings

  /** A token of `ScanLines`: one trailing carriage return is dropped. */
  function DropCR(line: string): (r: string)
    ensures line == r || line == r + "\r"
    ensures '\n' !in line ==> '\n' !in r
  {
    if |line| > 0 && line[|line| - 1] == '\r' then line[..|line| - 1] else line
  }

  /** Whether the data ends without a terminating newline (so the final line is unterminated). */
  predicate Unterminated(data: string) {
    data != [] && data[|data| - 1] != '\n'
  }

  /** The pieces between line feeds, without the empty one after a final line feed. */
  function LinePieces(data: string): (kept: seq<string>)
    ensures forall i :: 0 <= i < |kept| ==> '\n' !in kept[i]
  {
    var parts := Split(data, '\n');
    if parts[|parts| - 1] == "" then parts[..|parts| - 1] else parts
  }

  /**
   * The tokens `bufio.Scanner` yields for `data`: the text between line
   * feeds, without a trailing carriage return; a final line feed does not
   * start an empty last token, and empty data yields no token.
   */
  function ScanLines(data: string): (lines: seq<string>)
    ensures |lines| == Count(data, '\n') + (if Unterminated(data) then 1 else 0)
    ensures forall i :: 0 <= i < |lines| ==> '\n' !in lines[i]
  {
    SplitLastEmpty(data, '\n');
    var kept := LinePieces(data);
    seq(|kept|, i requires 0 <= i < |kept| => DropCR(kept[i]))
  }

  /** Without carriage returns, the tokens are the pieces themselves. */
  lemma LinesArePieces(data: string)
    requires '\r' !in data
    ensures ScanLines(data) == LinePieces(data)
  {
    var parts := Split(data, '\n');
    var lines := ScanLines(data);
    var kept := LinePieces(data);
    forall i | 0 <= i < |kept| ensures lines[i] == kept[i] {
      assert kept[i] == parts[i];
      assert '\r' !in kept[i] by {
        if '\r' in kept[i] {
          PartInside(data, '\n', i, '\r');
        }
      }
    }
  }

  /** The pieces joined by line feeds give back the data, up to its final line feed. */
  lemma LinePiecesRejoin(data: string)
    ensures Join(LinePieces(data), "\n") + (if Unterminated(data) || data == [] then "" else "\n") == data
  {
    var parts := Split(data, '\n');
    var kept := LinePieces(data);
    SplitLastEmpty(data, '\n');
    JoinSplit(data, '\n');
    if parts[|parts| - 1] == "" && data != [] {
      assert |parts| >= 2 by {
        assert data[|data| - 1] == '\n';
        CountLast(data, '\n');
      }
      assert parts == kept + [""];
      JoinSnoc(kept, "", "\n");
      assert Join(kept, "\n") + "\n" + "" == Join(kept, "\n") + "\n";
    } else if data == [] {
      assert parts == [""];
    }
  }

  /** Without carriage returns, the lines joined by line feeds give back the data, up to its final line feed. */
  lemma LinesRejoin(data: string)
    requires '\r' !in data
    ensures Join(ScanLines(data), "\n") + (if Unterminated(data) || data == [] then "" else "\n") == data
  {
    LinesArePieces(data);
    LinePiecesRejoin(data);
  }

  /** A body of one line without a line feed or trailing carriage return is that one line. */
  lemma ScanOneLine(line: string)
    requires line != [] && '\n' !in line && line[|line| - 1] != '\r'
    ensures ScanLines(line) == [line]
  {
    assert IndexOf(line, '\n') == |line|;
    var parts := Split(line, '\n');
    assert parts == [line];
    assert DropCR(line) == line;
  }

  /** A character of a split piece is a character of the string. */
  lemma {:induction false} PartInside(s: string, sep: char, k: nat, c: char)
    requires k < |Split(s, sep)| && c in Split(s, sep)[k]
    ensures c in s
    decreases |s|
  {
    var i := IndexOf(s, sep);
    if i < |s| {
      assert Split(s, sep) == [s[..i]] + Split(s[i + 1..], sep);
      if k > 0 {
        PartInside(s[i + 1..], sep, k - 1, c);
      }
    }
  }

  lemma CountLast(s: string, c: char)
    requires s != [] && s[|s| - 1] == c
    ensures Count(s, c) >= 1
  {
    assert s == s[..|s| - 1] + [c];
    CountAppend(s[..|s| - 1], [c], c);
  }

  /** The records a list of lines yields, each line giving at most one, in line order. */
  function FilterMap<A, B>(xs: seq<A>, f: A -> Option<B>): (r: seq<B>)
    ensures |r| <= |xs|
  {
    if xs == [] then []
    else
      (match f(xs[0]) case Some(y) => [y] case None => []) + FilterMap(xs[1..], f)
  }

  /** Lines are handled one at a time: the records of a concatenation are the concatenated records. */
  lemma {:induction false} FilterMapAppend<A, B>(xs: seq<A>, ys: seq<A>, f: A -> Option<B>)
    ensures FilterMap(xs + ys, f) == FilterMap(xs, f) + FilterMap(ys, f)
    decreases |xs|
  {
    if xs != [] {
      assert (xs + ys)[1..] == xs[1..] + ys;
      FilterMapAppend(xs[1..], ys, f);
    } else {
      assert xs + ys == ys;
    }
  }

  predicate Increasing(idx: seq<nat>) {
    forall k, l :: 0 <= k < l < |idx| ==> idx[k] < idx[l]
  }

  /** The positions of the lines that yield a record. */
  function KeptIndices<A, B>(xs: seq<A>, f: A -> Option<B>): (idx: seq<nat>)
    ensures forall k :: 0 <= k < |idx| ==> idx[k] < |xs|
  {
    if xs == [] then []
    else
      var rest := KeptIndices(xs[1..], f);
      var shifted := seq(|rest|, k requires 0 <= k < |rest| => rest[k] + 1);
      (if f(xs[0]).Some? then [0] else []) + shifted
  }

  /**
   * The records are exactly those of the lines that yield one, in line
   * order: record `k` comes from line `idx[k]`, the positions increase,
   * and every line that yields a record is among them.
   */
  lemma FilterMapExactly<A, B>(xs: seq<A>, f: A -> Option<B>)
    ensures var r := FilterMap(xs, f);
      var idx := KeptIndices(xs, f);
      && |idx| == |r|
      && (forall k :: 0 <= k < |r| ==> f(xs[idx[k]]) == Some(r[k]))
      && Increasing(idx)
      && (forall i :: 0 <= i < |xs| && f(xs[i]).Some? ==> i in idx)
  {
    KeptRecords(xs, f);
    KeptIncreasing(xs, f);
    KeptComplete(xs, f);
  }

  /** Record `k` of `r` is what `f` makes of line `idx[k]` of `xs`. */
  ghost predicate DrawnFrom<A, B>(xs: seq<A>, f: A -> Option<B>, idx: seq<nat>, r: seq<B>) {
    |idx| == |r| && forall k :: 0 <= k < |r| ==> idx[k] < |xs| && f(xs[idx[k]]) == Some(r[k])
  }

  lemma {:induction false} KeptRecords<A, B>(xs: seq<A>, f: A -> Option<B>)
    ensures DrawnFrom(xs, f, KeptIndices(xs, f), FilterMap(xs, f))
    decreases |xs|
  {
    if xs != [] {
      var rest := KeptIndices(xs[1..], f);
      var tail := FilterMap(xs[1..], f);
      KeptRecords(xs[1..], f);
      assert DrawnFrom(xs[1..], f, rest, tail);
      var idx := KeptIndices(xs, f);
      var r := FilterMap(xs, f);
      var head := if f(xs[0]).Some? then 1 else 0;
      assert |idx| == head + |rest| && |r| == head + |tail|;
      forall k | 0 <= k < |r| ensures idx[k] < |xs| && f(xs[idx[k]]) == Some(r[k]) {
        if k >= head {
          assert idx[k] == rest[k - head] + 1 && r[k] == tail[k - head];
          assert xs[idx[k]] == xs[1..][rest[k - head]];
        }
      }
    }
  }

  lemma {:induction false} KeptIncreasing<A, B>(xs: seq<A>, f: A -> Option<B>)
    ensures Increasing(KeptIndices(xs, f))
    decreases |xs|
  {
    if xs != [] {
      KeptIncreasing(xs[1..], f);
      var rest := KeptIndices(xs[1..], f);
      var idx := KeptIndices(xs, f);
      var head := if f(xs[0]).Some? then 1 else 0;
      assert |idx| == head + |rest|;
      assert forall j :: head <= j < |idx| ==> idx[j] == rest[j - head] + 1;
      assert Increasing(rest);
      forall k, l | 0 <= k < l < |idx| ensures idx[k] < idx[l] {
        if k >= head {
          assert idx[k] == rest[k - head] + 1 && idx[l] == rest[l - head] + 1;
        } else {
          assert idx[k] == 0 && idx[l] == rest[l - head] + 1;
        }
      }
    }
  }

  lemma {:induction false} KeptComplete<A, B>(xs: seq<A>, f: A -> Option<B>)
    ensures var idx := KeptIndices(xs, f);
      forall i :: 0 <= i < |xs| && f(xs[i]).Some? ==> i in idx
    decreases |xs|
  {
    if xs != [] {
      KeptComplete(xs[1..], f);
      var rest := KeptIndices(xs[1..], f);
      var idx := KeptIndices(xs, f);
      var head := if f(xs[0]).Some? then 1 else 0;
      forall i | 0 <= i < |xs| && f(xs[i]).Some? ensures i in idx {
        if i > 0 {
          assert xs[1..][i - 1] == xs[i];
          var k :| 0 <= k < |rest| && rest[k] == i - 1;
          assert idx[head + k] == i;
        } else {
          assert idx[0] == 0;
        }
      }
    }
  }
}
