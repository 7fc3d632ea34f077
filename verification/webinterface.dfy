/**
 * webinterface.go: the static-file handler. The request path gets a
 * leading "/" if it lacks one, loses one leading "/web", is written back
 * into the request, and the file served is `webRoot` joined with the
 * cleaned path. `http.ServeFile` itself, which reads the file system, is
 * not part of this model: the result is the path it is given.
 */
module WebInterface {
  import opened GoStrings
  import opened GoPath

  /** What the handler hands on: the rewritten request path and the file path given to `ServeFile`. */
  datatype Served = Served(urlPath: string, file: string)

  /** The request path after the leading "/" is ensured and "/web" is stripped. */
  function StripPath(urlPath: string): (upath: string)
    ensures HasPrefix(urlPath, "/web") ==> "/web" + upath == urlPath
    ensures !HasPrefix(urlPath, "/") ==> upath == TrimPrefix("/" + urlPath, "/web")
    ensures HasPrefix(urlPath, "/") && !HasPrefix(urlPath, "/web") ==> upath == urlPath
  {
    var withSlash := if HasPrefix(urlPath, "/") then urlPath else "/" + urlPath;
    TrimPrefix(withSlash, "/web")
  }

  /** `webInterface`: the request path is overwritten with the stripped path. */
  function WebInterface(urlPath: string, webRoot: string): (s: Served)
    ensures s.urlPath == StripPath(urlPath)
    ensures s.file == FileJoin(webRoot, Clean(s.urlPath))
    ensures s.file != ""
  {
    var upath := StripPath(urlPath);
    Served(upath, FileJoin(webRoot, Clean(upath)))
  }

  /**
   * When the stripped path is rooted, the served file stays under the web
   * root: its elements are the web root's, then the request's, with no
   * ".." among the request's.
   */
  lemma ServedUnderRoot(urlPath: string, webRoot: string)
    requires webRoot != ""
    requires Rooted(StripPath(urlPath))
    ensures var upath := StripPath(urlPath);
      && Elements(WebInterface(urlPath, webRoot).file) == Stack(webRoot) + Stack(upath)
      && forall i :: 0 <= i < |Stack(upath)| ==> Stack(upath)[i] != ".."
  {
    var upath := StripPath(urlPath);
    var c := Clean(upath);
    CleanElements(upath);
    CleanRootedNoDotDot(upath);
    var joined := webRoot + "/" + c;
    CleanElements(joined);
    ElementsConcat(webRoot, c);
    ResolveAppend([], Elements(webRoot), Elements(c), Rooted(webRoot));
    assert Rooted(joined) == Rooted(webRoot) by {
      assert joined[0] == webRoot[0];
    }
    ResolveNormal([], Elements(webRoot), Rooted(webRoot));
    ResolveNormal([], Elements(upath), true);
    ResolvePlain(Stack(webRoot), Elements(c), Rooted(webRoot));
  }

  /** Reading elements without ".." pushes them all. */
  lemma {:induction false} ResolvePlain(stack: seq<string>, elems: seq<string>, rooted: bool)
    requires forall i :: 0 <= i < |elems| ==> elems[i] != ".."
    ensures Resolve(stack, elems, rooted) == stack + elems
    decreases |elems|
  {
    if elems != [] {
      assert forall i :: 0 <= i < |elems[1..]| ==> elems[1..][i] == elems[i + 1];
      ResolvePlain(stack + [elems[0]], elems[1..], rooted);
      assert stack + [elems[0]] + elems[1..] == stack + elems;
    }
  }

  /**
   * Only the four letters "/web" are stripped, whatever follows them, so
   * "/webx" is served as "x" and "/web../x" as "../x".
   */
  lemma StripWebLetters(rest: string)
    requires rest == [] || rest[0] != '/'
    ensures StripPath("/web" + rest) == rest
    ensures WebInterface("/web" + rest, "w").urlPath == rest
  {
    var up := "/web" + rest;
    assert up[..1] == "/" && up[..4] == "/web";
    assert up[4..] == rest;
  }

  /** A single proper path element, without slashes. */
  predicate Plain(e: string) {
    e != "" && e != "." && e != ".." && '/' !in e
  }

  /** The elements of one element. */
  lemma ElementsOfPlain(e: string)
    requires e != "" && e != "." && '/' !in e
    ensures Elements(e) == [e]
  {
    PiecesOfPlain(e);
    KeepNormal([e]);
  }

  /** Cleaning keeps a leading ".." of a relative path. */
  lemma CleanKeepsDotDot(x: string)
    requires Plain(x)
    ensures Clean("../" + x) == "../" + x
  {
    ElementsOfPlain("..");
    ElementsOfPlain(x);
    ElementsConcat("..", x);
    assert ".." + "/" + x == "../" + x;
    assert !Rooted("../" + x);
    assert ["..", x][1..] == [x];
    var none: seq<string> := [];
    assert none + [".."] == [".."];
    assert Resolve([], ["..", x], false) == Resolve([".."], [x], false);
    assert Resolve([".."], [x], false) == Resolve([".."] + [x], [], false);
    assert Join(["..", x], "/") == ".." + "/" + x;
  }

  /** Joining "../x" onto a one-element root cancels the root. */
  lemma JoinCancelsRoot(root: string, x: string)
    requires Plain(root) && Plain(x)
    ensures FileJoin(root, "../" + x) == x
  {
    ElementsOfPlain(root);
    ElementsOfPlain("..");
    ElementsOfPlain(x);
    ElementsConcat("..", x);
    assert ".." + "/" + x == "../" + x;
    ElementsConcat(root, "../" + x);
    var p := root + "/" + ("../" + x);
    assert Elements(p) == [root, "..", x];
    assert !Rooted(p) by { assert p[0] == root[0]; }
    assert Resolve([], [root, "..", x], false) == Resolve([root], ["..", x], false);
    assert Resolve([root], ["..", x], false) == Resolve([], [x], false);
    assert Resolve([], [x], false) == Resolve([x], [], false);
  }

  /**
   * The request "/web../x" under a one-element web root names "x", a
   * sibling of the web root rather than a file inside it: the cleaning
   * alone does not confine it, since the stripped path is relative. The
   * rewritten request path keeps its "..", which `ServeFile` refuses by a
   * check of its own outside this model.
   */
  lemma EscapesRoot(root: string, x: string)
    requires Plain(root) && Plain(x)
    ensures WebInterface("/web../" + x, root) == Served("../" + x, x)
  {
    StripWebLetters("../" + x);
    assert "/web" + ("../" + x) == "/web../" + x;
    CleanKeepsDotDot(x);
    JoinCancelsRoot(root, x);
  }
}
