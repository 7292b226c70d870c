/**
 * ChangeFileModeRecursively: a post-order walk of a directory tree that
 * changes the mode of every entry below a directory, then of the directory
 * itself, and stops at the first failure.
 *
 * The file system is a tree of entries; a directory lists its entries in
 * the order the directory enumeration returns them, "." and ".." included.
 * Changing the mode of one path is a call into Windows whose outcome is the
 * oracle `ok`; the walk's observable effect is the list of paths whose mode
 * it tries to change, in order.
 */
module TreeWalk {

  /** A file-system entry: a file, or a directory with its enumerated entries. */
  datatype Entry = File(name: string) | Dir(name: string, entries: seq<Entry>)

  /** A path as the list of its components. */
  type Path = seq<string>

  /** What a walk did: the paths whose mode it tried to change, in order, and whether it succeeded. */
  datatype Outcome = Outcome(attempted: seq<Path>, success: bool)

  /** The enumeration entries the walk passes over. */
  predicate IsDotEntry(e: Entry) {
    e.name == "." || e.name == ".."
  }

  /** The walk of the subtree `e` at `path`. */
  function Walk(path: Path, e: Entry, ok: Path -> bool): Outcome
    decreases e, 1
  {
    match e
    case File(_) => Outcome([path], ok(path))
    case Dir(_, es) =>
      var children := WalkEntries(path, es, ok);
      if !children.success then children
      else Outcome(children.attempted + [path], ok(path))
  }

  /** The walk of the entries of the directory at `path`, in enumeration order. */
  function WalkEntries(path: Path, es: seq<Entry>, ok: Path -> bool): Outcome
    decreases es, 0
  {
    if es == [] then Outcome([], true)
    else if IsDotEntry(es[0]) then WalkEntries(path, es[1..], ok)
    else
      var first := Walk(path + [es[0].name], es[0], ok);
      if !first.success then first
      else
        var rest := WalkEntries(path, es[1..], ok);
        Outcome(first.attempted + rest.attempted, rest.success)
  }

  /**
   * ChangeFileModeRecursively. A file has its mode changed; a directory has
   * each of its entries other than "." and ".." walked in enumeration order,
   * then its own mode changed. The first failure ends the walk.
   */
  method ChangeFileModeRecursively(path: Path, e: Entry, ok: Path -> bool)
    returns (success: bool, attempted: seq<Path>)
    ensures Outcome(attempted, success) == Walk(path, e, ok)
    decreases e, 1
  {
    if e.File? {
      attempted := [path];
      success := ok(path);
      return;
    }
    success, attempted := ChangeEntries(path, e.entries, ok);
    if success {
      attempted := attempted + [path];
      success := ok(path);
    }
  }

  /**
   * The enumeration loop of ChangeFileModeRecursively: each entry other
   * than "." and ".." walked in turn, until one fails.
   */
  method ChangeEntries(path: Path, es: seq<Entry>, ok: Path -> bool)
    returns (success: bool, attempted: seq<Path>)
    ensures Outcome(attempted, success) == WalkEntries(path, es, ok)
    decreases es, 0
  {
    attempted := [];
    success := true;
    var j := 0;
    while j < |es|
      invariant 0 <= j <= |es|
      invariant success ==>
        WalkEntries(path, es, ok)
        == var rest := WalkEntries(path, es[j..], ok); Outcome(attempted + rest.attempted, rest.success)
      invariant !success ==> Outcome(attempted, false) == WalkEntries(path, es, ok)
    {
      assert es[j..][1..] == es[j + 1..];
      if !IsDotEntry(es[j]) {
        var childOk, childAttempted := ChangeFileModeRecursively(path + [es[j].name], es[j], ok);
        assert (attempted + childAttempted) + WalkEntries(path, es[j + 1..], ok).attempted
          == attempted + (childAttempted + WalkEntries(path, es[j + 1..], ok).attempted);
        attempted := attempted + childAttempted;
        if !childOk {
          success := false;
          break;
        }
      }
      j := j + 1;
    }
    if success {
      assert es[|es|..] == [];
      assert attempted + [] == attempted;
    }
  }

  // The reference order

  /** Every path below and including `path` the walk must change, in post-order. */
  function PostOrder(path: Path, e: Entry): seq<Path>
    decreases e, 1
  {
    match e
    case File(_) => [path]
    case Dir(_, es) => PostOrderEntries(path, es) + [path]
  }

  function PostOrderEntries(path: Path, es: seq<Entry>): seq<Path>
    decreases es, 0
  {
    if es == [] then []
    else if IsDotEntry(es[0]) then PostOrderEntries(path, es[1..])
    else PostOrder(path + [es[0].name], es[0]) + PostOrderEntries(path, es[1..])
  }

  /** Whether every path of the list can be changed. */
  predicate AllOk(ps: seq<Path>, ok: Path -> bool) {
    forall i :: 0 <= i < |ps| ==> ok(ps[i])
  }

  /** The list cut just after its first path that cannot be changed. */
  function UpToFailure(ps: seq<Path>, ok: Path -> bool): seq<Path>
    decreases |ps|
  {
    if ps == [] then []
    else if !ok(ps[0]) then [ps[0]]
    else [ps[0]] + UpToFailure(ps[1..], ok)
  }

  lemma {:induction false} UpToFailureAppend(xs: seq<Path>, ys: seq<Path>, ok: Path -> bool)
    ensures UpToFailure(xs + ys, ok) == if AllOk(xs, ok) then xs + UpToFailure(ys, ok) else UpToFailure(xs, ok)
    ensures AllOk(xs + ys, ok) == (AllOk(xs, ok) && AllOk(ys, ok))
    decreases |xs|
  {
    if xs == [] {
      assert xs + ys == ys;
    } else {
      assert (xs + ys)[0] == xs[0];
      assert (xs + ys)[1..] == xs[1..] + ys;
      UpToFailureAppend(xs[1..], ys, ok);
      assert AllOk(xs, ok) == (ok(xs[0]) && AllOk(xs[1..], ok));
      assert AllOk(xs + ys, ok) == (ok(xs[0]) && AllOk(xs[1..] + ys, ok));
    }
  }

  lemma AllOkSingle(p: Path, ok: Path -> bool)
    ensures AllOk([p], ok) == ok(p)
  {
    assert [p][0] == p;
  }

  lemma UpToFailureAll(ps: seq<Path>, ok: Path -> bool)
    requires AllOk(ps, ok)
    ensures UpToFailure(ps, ok) == ps
  {
    UpToFailureAppend(ps, [], ok);
    assert ps + [] == ps;
  }

  /**
   * The walk tries the post-order list of the tree up to and including
   * its first path that cannot be changed, and succeeds exactly when every
   * path of the tree can be changed.
   */
  lemma {:induction false} WalkIsPostOrderPrefix(path: Path, e: Entry, ok: Path -> bool)
    ensures Walk(path, e, ok) == Outcome(UpToFailure(PostOrder(path, e), ok), AllOk(PostOrder(path, e), ok))
    decreases e, 1
  {
    match e
    case File(_) =>
      AllOkSingle(path, ok);
    case Dir(_, es) =>
      WalkEntriesIsPostOrderPrefix(path, es, ok);
      var p := PostOrderEntries(path, es);
      UpToFailureAppend(p, [path], ok);
      AllOkSingle(path, ok);
      if AllOk(p, ok) {
        UpToFailureAll(p, ok);
      }
  }

  lemma {:induction false} WalkEntriesIsPostOrderPrefix(path: Path, es: seq<Entry>, ok: Path -> bool)
    ensures WalkEntries(path, es, ok)
      == Outcome(UpToFailure(PostOrderEntries(path, es), ok), AllOk(PostOrderEntries(path, es), ok))
    decreases es, 0
  {
    if es != [] {
      WalkEntriesIsPostOrderPrefix(path, es[1..], ok);
      if !IsDotEntry(es[0]) {
        var q := path + [es[0].name];
        WalkIsPostOrderPrefix(q, es[0], ok);
        var p := PostOrder(q, es[0]);
        UpToFailureAppend(p, PostOrderEntries(path, es[1..]), ok);
        if AllOk(p, ok) {
          UpToFailureAll(p, ok);
        }
      }
    }
  }

  /**
   * Cutting at the first failure keeps a prefix whose last path is the
   * first one that cannot be changed.
   */
  lemma {:induction false} UpToFailureShape(ps: seq<Path>, ok: Path -> bool)
    requires !AllOk(ps, ok)
    ensures var u := UpToFailure(ps, ok);
      && 0 < |u| <= |ps| && u == ps[..|u|]
      && !ok(u[|u| - 1])
      && forall i :: 0 <= i < |u| - 1 ==> ok(u[i])
    decreases |ps|
  {
    if ok(ps[0]) {
      var i :| 0 <= i < |ps| && !ok(ps[i]);
      assert ps[1..][i - 1] == ps[i];
      UpToFailureShape(ps[1..], ok);
      var u := UpToFailure(ps[1..], ok);
      assert UpToFailure(ps, ok) == [ps[0]] + u;
      assert [ps[0]] + ps[1..][..|u|] == ps[..|u| + 1];
    }
  }

  /**
   * The walk succeeds exactly when it attempted the whole post-order list;
   * when it fails, the path it attempted last is the only one that failed.
   */
  lemma WalkStopsAtFirstFailure(path: Path, e: Entry, ok: Path -> bool)
    ensures var w := Walk(path, e, ok); var p := PostOrder(path, e);
      && (w.success ==> w.attempted == p)
      && (!w.success ==>
            && 0 < |w.attempted| <= |p| && w.attempted == p[..|w.attempted|]
            && !ok(w.attempted[|w.attempted| - 1])
            && forall i :: 0 <= i < |w.attempted| - 1 ==> ok(w.attempted[i]))
  {
    var p := PostOrder(path, e);
    WalkIsPostOrderPrefix(path, e, ok);
    if AllOk(p, ok) {
      UpToFailureAll(p, ok);
    } else {
      UpToFailureShape(p, ok);
    }
  }

  // Properties of the post-order list

  /** Whether `p` starts with `path` and continues with no "." or ".." component. */
  predicate Below(path: Path, p: Path) {
    && |path| <= |p| && p[..|path|] == path
    && forall k :: |path| <= k < |p| ==> p[k] != "." && p[k] != ".."
  }

  lemma BelowExtend(path: Path, name: string, p: Path)
    requires name != "." && name != ".."
    requires Below(path + [name], p)
    ensures Below(path, p)
  {
    assert p[..|path|] == (path + [name])[..|path|];
    assert (path + [name])[..|path|] == path;
  }

  /**
   * The walk stays below the starting directory and never follows a "." or
   * ".." entry: every path of the post-order list is the starting path
   * extended by names other than "." and "..".
   */
  lemma {:induction false} PostOrderStaysBelow(path: Path, e: Entry)
    ensures forall i :: 0 <= i < |PostOrder(path, e)| ==> Below(path, PostOrder(path, e)[i])
    decreases e, 1
  {
    match e
    case File(_) =>
      assert Below(path, path);
    case Dir(_, es) =>
      PostOrderEntriesStayBelow(path, es);
      assert Below(path, path);
  }

  lemma {:induction false} PostOrderEntriesStayBelow(path: Path, es: seq<Entry>)
    ensures forall i :: 0 <= i < |PostOrderEntries(path, es)| ==> Below(path, PostOrderEntries(path, es)[i])
    decreases es, 0
  {
    if es != [] {
      PostOrderEntriesStayBelow(path, es[1..]);
      if !IsDotEntry(es[0]) {
        var q := path + [es[0].name];
        PostOrderStaysBelow(q, es[0]);
        var first := PostOrder(q, es[0]);
        var rest := PostOrderEntries(path, es[1..]);
        forall i | 0 <= i < |first|
          ensures Below(path, first[i])
        {
          BelowExtend(path, es[0].name, first[i]);
        }
        assert PostOrderEntries(path, es) == first + rest;
      }
    }
  }

  /** A directory's own path comes last, after everything below it: the walk is post-order. */
  lemma DirectoryLast(path: Path, name: string, es: seq<Entry>)
    ensures var p := PostOrder(path, Dir(name, es));
      p[|p| - 1] == path && forall i :: 0 <= i < |p| - 1 ==> |p[i]| > |path|
  {
    var p := PostOrder(path, Dir(name, es));
    PostOrderEntriesStayBelow(path, es);
    forall i | 0 <= i < |p| - 1
      ensures |p[i]| > |path|
    {
      assert p[i] == PostOrderEntries(path, es)[i];
      DeeperEntries(path, es, i);
    }
  }

  /** The entries of a directory have paths strictly longer than the directory's. */
  lemma {:induction false} DeeperEntries(path: Path, es: seq<Entry>, i: nat)
    requires i < |PostOrderEntries(path, es)|
    ensures |PostOrderEntries(path, es)[i]| > |path|
    decreases es, 0
  {
    if es != [] {
      if IsDotEntry(es[0]) {
        DeeperEntries(path, es[1..], i);
      } else {
        var q := path + [es[0].name];
        var first := PostOrder(q, es[0]);
        if i < |first| {
          PostOrderStaysBelow(q, es[0]);
          assert Below(q, first[i]);
        } else {
          DeeperEntries(path, es[1..], i - |first|);
        }
      }
    }
  }
}
