/**
 * Go's `path.Clean`, by its lexical rules: repeated slashes collapse, "."
 * elements go, a ".." removes the element before it, and ".." at the
 * start of a rooted path is dropped; an empty result is ".". And the
 * two-element `filepath.Join` on a system whose separator is "/".
 */
module GoPath {
  import opened GoStrings

  /** Whether a path is rooted, i.e. starts with "/". */
  predicate Rooted(p: string) {
    |p| > 0 && p[0] == '/'
  }

  /** The elements that are kept from a split: no empty ones and no ".". */
  function Keep(parts: seq<string>): (r: seq<string>)
    ensures forall i :: 0 <= i < |r| ==> r[i] != "" && r[i] != "."
    ensures forall i :: 0 <= i < |r| ==> r[i] in parts
  {
    if parts == [] then []
    else if parts[0] == "" || parts[0] == "." then Keep(parts[1..])
    else [parts[0]] + Keep(parts[1..])
  }

  lemma {:induction false} KeepAppend(a: seq<string>, b: seq<string>)
    ensures Keep(a + b) == Keep(a) + Keep(b)
    decreases |a|
  {
    if a == [] {
      assert a + b == b;
    } else {
      assert (a + b)[1..] == a[1..] + b;
      KeepAppend(a[1..], b);
    }
  }

  /** The text between slashes, as `strings.Split(p, "/")` cuts it: one more piece than slashes. */
  function Pieces(p: string): (r: seq<string>)
    ensures |r| >= 1
    ensures forall i :: 0 <= i < |r| ==> '/' !in r[i]
  {
    if p == [] then [""]
    else
      var rest := Pieces(p[1..]);
      if p[0] == '/' then [""] + rest else [[p[0]] + rest[0]] + rest[1..]
  }

  /** The path's elements between slashes, without empty and "." ones. */
  function Elements(p: string): (r: seq<string>)
    ensures forall i :: 0 <= i < |r| ==> r[i] != "" && r[i] != "." && '/' !in r[i]
  {
    Keep(Pieces(p))
  }

  /**
   * The element stack after reading `elems`: a ".." pops an element that is
   * not itself "..", is dropped at the root of a rooted path, and is kept
   * otherwise.
   */
  function Resolve(stack: seq<string>, elems: seq<string>, rooted: bool): seq<string>
    decreases |elems|
  {
    if elems == [] then stack
    else if elems[0] == ".." then
      if |stack| > 0 && stack[|stack| - 1] != ".." then Resolve(stack[..|stack| - 1], elems[1..], rooted)
      else if rooted then Resolve(stack, elems[1..], rooted)
      else Resolve(stack + [".."], elems[1..], rooted)
    else Resolve(stack + [elems[0]], elems[1..], rooted)
  }

  /** The elements of a clean path. */
  function Stack(p: string): seq<string> {
    Resolve([], Elements(p), Rooted(p))
  }

  /** `path.Clean`. */
  function Clean(p: string): (c: string)
    ensures c != ""
  {
    var body := Join(Stack(p), "/");
    if Rooted(p) then "/" + body else if body == "" then "." else body
  }

  /**
   * A stack in normal form: proper elements without slashes, any ".."
   * before every other element, and none at all in a rooted path.
   */
  predicate Normal(st: seq<string>, rooted: bool) {
    && (forall i :: 0 <= i < |st| ==> st[i] != "" && st[i] != "." && '/' !in st[i])
    && (forall i, j :: 0 <= i < j < |st| && st[j] == ".." ==> st[i] == "..")
    && (rooted ==> forall i :: 0 <= i < |st| ==> st[i] != "..")
  }

  lemma {:induction false} ResolveNormal(stack: seq<string>, elems: seq<string>, rooted: bool)
    requires Normal(stack, rooted)
    requires forall i :: 0 <= i < |elems| ==> elems[i] != "" && elems[i] != "." && '/' !in elems[i]
    ensures Normal(Resolve(stack, elems, rooted), rooted)
    decreases |elems|
  {
    if elems != [] {
      var rest := elems[1..];
      assert forall i :: 0 <= i < |rest| ==> rest[i] == elems[i + 1];
      if elems[0] == ".." {
        if |stack| > 0 && stack[|stack| - 1] != ".." {
          ResolveNormal(stack[..|stack| - 1], rest, rooted);
        } else if rooted {
          ResolveNormal(stack, rest, rooted);
        } else {
          assert forall i :: 0 <= i < |stack| ==> stack[i] == ".." by {
            forall i | 0 <= i < |stack| ensures stack[i] == ".." {
              if stack[|stack| - 1] == ".." && i < |stack| - 1 {
                assert stack[i] == "..";
              }
            }
          }
          ResolveNormal(stack + [".."], rest, rooted);
        }
      } else {
        ResolveNormal(stack + [elems[0]], rest, rooted);
      }
    }
  }

  /** Reading elements that are already in normal form after a stack pushes them all. */
  lemma {:induction false} ResolveOfNormal(stack: seq<string>, elems: seq<string>, rooted: bool)
    requires Normal(stack + elems, rooted)
    ensures Resolve(stack, elems, rooted) == stack + elems
    decreases |elems|
  {
    if elems != [] {
      var all := stack + elems;
      assert all == (stack + [elems[0]]) + elems[1..];
      if elems[0] == ".." {
        assert all[|stack|] == "..";
        assert !rooted;
        if |stack| > 0 {
          assert all[|stack| - 1] == "..";
        }
      }
      ResolveOfNormal(stack + [elems[0]], elems[1..], rooted);
    }
  }

  /** Reading two lists of elements is reading the first, then the second. */
  lemma {:induction false} ResolveAppend(stack: seq<string>, a: seq<string>, b: seq<string>, rooted: bool)
    ensures Resolve(stack, a + b, rooted) == Resolve(Resolve(stack, a, rooted), b, rooted)
    decreases |a|
  {
    if a == [] {
      assert a + b == b;
    } else {
      assert (a + b)[0] == a[0];
      assert (a + b)[1..] == a[1..] + b;
      if a[0] == ".." {
        if |stack| > 0 && stack[|stack| - 1] != ".." {
          ResolveAppend(stack[..|stack| - 1], a[1..], b, rooted);
        } else if rooted {
          ResolveAppend(stack, a[1..], b, rooted);
        } else {
          ResolveAppend(stack + [".."], a[1..], b, rooted);
        }
      } else {
        ResolveAppend(stack + [a[0]], a[1..], b, rooted);
      }
    }
  }

  /** A piece without slashes is one piece. */
  lemma {:induction false} PiecesOfPlain(a: string)
    requires '/' !in a
    ensures Pieces(a) == [a]
    decreases |a|
  {
    if a != [] {
      assert a == [a[0]] + a[1..];
      PiecesOfPlain(a[1..]);
    }
  }

  /** A slash between two strings separates their pieces. */
  lemma {:induction false} PiecesConcat(x: string, y: string)
    ensures Pieces(x + "/" + y) == Pieces(x) + Pieces(y)
    decreases |x|
  {
    var s := x + "/" + y;
    if x == [] {
      assert s == "/" + y;
      assert s[1..] == y;
    } else {
      assert s[0] == x[0];
      assert s[1..] == x[1..] + "/" + y;
      PiecesConcat(x[1..], y);
    }
  }

  /** The elements on either side of a slash are the elements of both sides. */
  lemma ElementsConcat(x: string, y: string)
    ensures Elements(x + "/" + y) == Elements(x) + Elements(y)
  {
    PiecesConcat(x, y);
    KeepAppend(Pieces(x), Pieces(y));
  }

  /** Splitting a join of slash-free pieces gives the pieces back. */
  lemma {:induction false} PiecesOfJoin(parts: seq<string>)
    requires |parts| >= 1
    requires forall k :: 0 <= k < |parts| ==> '/' !in parts[k]
    ensures Pieces(Join(parts, "/")) == parts
    decreases |parts|
  {
    PiecesOfPlain(parts[0]);
    if |parts| > 1 {
      PiecesOfJoin(parts[1..]);
      PiecesConcat(parts[0], Join(parts[1..], "/"));
    }
  }

  lemma {:induction false} KeepNormal(st: seq<string>)
    requires forall i :: 0 <= i < |st| ==> st[i] != "" && st[i] != "."
    ensures Keep(st) == st
    decreases |st|
  {
    if st != [] {
      KeepNormal(st[1..]);
    }
  }

  lemma JoinNonEmpty(st: seq<string>)
    requires st != [] && st[0] != ""
    ensures Join(st, "/") != "" && Join(st, "/")[0] == st[0][0]
  {
  }

  /** The elements of a joined normal stack are the stack. */
  lemma ElementsOfJoin(st: seq<string>)
    requires Normal(st, false)
    ensures Elements(Join(st, "/")) == st
    ensures Join(st, "/") == "" <==> st == []
    ensures st != [] ==> Join(st, "/")[0] != '/'
  {
    if st != [] {
      PiecesOfJoin(st);
      KeepNormal(st);
      JoinNonEmpty(st);
    }
  }

  /** A leading slash adds no element. */
  lemma ElementsRooted(body: string)
    ensures Elements("/" + body) == Elements(body)
  {
    assert "/" + body == "" + "/" + body;
    ElementsConcat("", body);
  }

  /** The elements of a clean path are its stack, and cleaning keeps a path rooted or not. */
  lemma CleanElements(p: string)
    ensures Elements(Clean(p)) == Stack(p)
    ensures Rooted(Clean(p)) == Rooted(p)
  {
    var st := Stack(p);
    ResolveNormal([], Elements(p), Rooted(p));
    var body := Join(st, "/");
    ElementsOfJoin(st);
    if Rooted(p) {
      ElementsRooted(body);
    } else if body == "" {
      var r := Pieces("."[1..]);
      assert "."[1..] == "" && r == [""];
      assert ['.'] + r[0] == "." && r[1..] == [];
      assert Pieces(".") == ["."];
      assert Keep(["."]) == [];
    }
  }

  /** Cleaning leaves the element stack as it is. */
  lemma StackOfClean(p: string)
    ensures Stack(Clean(p)) == Stack(p)
    ensures Rooted(Clean(p)) == Rooted(p)
  {
    var st := Stack(p);
    CleanElements(p);
    ResolveNormal([], Elements(p), Rooted(p));
    ResolveOfNormal([], st, Rooted(p));
    assert [] + st == st;
  }

  /** Cleaning is idempotent. */
  lemma CleanIdempotent(p: string)
    ensures Clean(Clean(p)) == Clean(p)
  {
    StackOfClean(p);
  }

  /** A clean rooted path has no ".." element: it cannot climb above its root. */
  lemma CleanRootedNoDotDot(p: string)
    requires Rooted(p)
    ensures Rooted(Clean(p))
    ensures forall i :: 0 <= i < |Elements(Clean(p))| ==> Elements(Clean(p))[i] != ".."
  {
    CleanElements(p);
    ResolveNormal([], Elements(p), true);
  }

  /** `filepath.Join` of two elements: empty ones are ignored and the result is cleaned. */
  function FileJoin(a: string, b: string): (r: string)
    ensures a == "" && b == "" <==> r == ""
  {
    if a == "" && b == "" then ""
    else if a == "" then Clean(b)
    else if b == "" then Clean(a)
    else Clean(a + "/" + b)
  }
}
