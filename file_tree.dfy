/**
 * An abstract file system: the set of absolute paths that exist, each one a
 * directory or a file, and the `tokio::fs` calls the actions make on it
 * (`metadata`, `try_exists`, `create_dir_all`, `rename`, `write`,
 * `remove_file`), stated as functions from the old tree to the new one.
 */
module FileTree {
  import opened Results

  /**
   * One path component: a non-empty name that is neither `.` nor `..` and
   * holds no separator, so that every path has exactly one spelling.
   */
  type Name = s: string | s != "" && s != "." && s != ".." && '/' !in s witness "a"

  /** An absolute path, as its components below the root `/` (the root itself is `[]`). */
  type Path = seq<Name>

  datatype Node = Dir | File(content: string)

  type Tree = map<Path, Node>

  /** The kinds of `std::io::Error` that the file-system calls report. */
  datatype IoError = NotFound | NotADirectory | IsADirectory | AlreadyExists | InvalidInput

  /** `a` is `b` or one of its ancestors. */
  predicate IsPrefix(a: Path, b: Path) {
    |a| <= |b| && b[..|a|] == a
  }

  /** `Path::parent`: every path but the root has one. */
  function Parent(p: Path): (r: Option<Path>)
    ensures r.None? <==> p == []
    ensures r.Some? ==> |r.value| + 1 == |p| && IsPrefix(r.value, p)
  {
    if p == [] then None else Some(p[..|p| - 1])
  }

  /** `path.display()` for an absolute path: `/` for the root, `/a/b` otherwise. */
  function Display(p: Path): (r: string)
    ensures |r| > 0 && r[0] == '/'
  {
    if p == [] then "/" else Components(p)
  }

  function Components(p: Path): string {
    if |p| == 0 then "" else "/" + p[0] + Components(p[1..])
  }

  /** The text of a non-empty path starts with its first separator. */
  lemma ComponentsStart(p: Path)
    requires |p| > 0
    ensures |Components(p)| >= 2 && Components(p)[0] == '/'
  {
  }

  /** Within a component there is no separator; the text after it starts with one. */
  lemma SeparatorAfter(a: Name, r: string)
    requires r == "" || r[0] == '/'
    ensures forall i | 0 <= i < |a| :: (a + r)[i] != '/'
    ensures |r| > 0 ==> (a + r)[|a|] == '/'
  {
    forall i | 0 <= i < |a| ensures (a + r)[i] != '/' {
      assert (a + r)[i] == a[i] && a[i] in a;
    }
  }

  /**
   * A component followed by the text of further components ends at the
   * first separator, so the component can be read back from the text.
   */
  lemma SplitAtSeparator(a: Name, ra: string, b: Name, rb: string)
    requires a + ra == b + rb
    requires ra == "" || ra[0] == '/'
    requires rb == "" || rb[0] == '/'
    ensures a == b && ra == rb
  {
    var x := a + ra;
    SeparatorAfter(a, ra);
    SeparatorAfter(b, rb);
    if |a| < |b| {
      assert false;
    } else if |b| < |a| {
      assert false;
    }
    assert a == x[..|a|] == b;
    assert ra == x[|a|..] == rb;
  }

  lemma {:induction false} ComponentsInjective(p: Path, q: Path)
    requires Components(p) == Components(q)
    ensures p == q
    decreases |p|
  {
    if |p| == 0 {
      if |q| > 0 { ComponentsStart(q); }
    } else if |q| == 0 {
      ComponentsStart(p);
    } else {
      var ra, rb := Components(p[1..]), Components(q[1..]);
      if |p| > 1 { ComponentsStart(p[1..]); }
      if |q| > 1 { ComponentsStart(q[1..]); }
      var s := Components(p);
      assert s[1..] == p[0] + ra;
      assert s[1..] == q[0] + rb;
      SplitAtSeparator(p[0], ra, q[0], rb);
      ComponentsInjective(p[1..], q[1..]);
      assert p == [p[0]] + p[1..] && q == [q[0]] + q[1..];
    }
  }

  /**
   * Every displayed path has exactly one spelling: two paths with the same
   * text are the same path, so no two keys of a tree name one file.
   */
  lemma DisplayInjective(p: Path, q: Path)
    requires Display(p) == Display(q)
    ensures p == q
  {
    if p == [] && q != [] {
      ComponentsStart(q);
    } else if p != [] && q == [] {
      ComponentsStart(p);
    } else if p != [] {
      ComponentsInjective(p, q);
    }
  }

  /**
   * A tree as a real file system has it: the root is a directory, and every
   * ancestor of an existing path is an existing directory.
   */
  ghost predicate Valid(t: Tree) {
    && [] in t && t[[]] == Dir
    && forall p, i | p in t && 0 <= i < |p| :: p[..i] in t && t[p[..i]] == Dir
  }

  /** No existing path lies at or below `p`. */
  ghost predicate NothingUnder(t: Tree, p: Path) {
    forall q | q in t :: !IsPrefix(p, q)
  }

  lemma ValidNothingUnder(t: Tree, p: Path)
    requires Valid(t) && p !in t
    ensures NothingUnder(t, p)
  {
    forall q | q in t ensures !IsPrefix(p, q) {
      if |p| < |q| {
        assert q[..|p|] in t;
      } else if |p| == |q| {
        assert q[..|p|] == q;
      }
    }
  }

  // ---------------------------------------------------------------- metadata, try_exists

  /** A proper ancestor of `p` exists as a file, so the lookup of `p` stops there. */
  predicate FileAbove(t: Tree, p: Path) {
    exists i | 0 <= i < |p| :: p[..i] in t && t[p[..i]].File?
  }

  /**
   * `metadata(p)`: the node at `p`; an absent path fails with `NotADirectory`
   * when the lookup meets a file on the way, and with `NotFound` otherwise.
   */
  function Lookup(t: Tree, p: Path): (r: Result<Node, IoError>)
    ensures r.Success? <==> p in t
    ensures r.Success? ==> r.value == t[p]
    ensures r == Failure(NotADirectory) <==> p !in t && FileAbove(t, p)
    ensures r.Failure? ==> r.error == NotFound || r.error == NotADirectory
  {
    if p in t then Success(t[p])
    else if FileAbove(t, p) then Failure(NotADirectory)
    else Failure(NotFound)
  }

  /**
   * `try_exists(p)`: only a lookup that fails with `NotFound` answers `false`;
   * any other failure is passed on.
   */
  function Exists(t: Tree, p: Path): (r: Result<bool, IoError>)
    ensures r == Success(true) <==> p in t
    ensures r == Success(false) <==> p !in t && !FileAbove(t, p)
    ensures r.Failure? <==> Lookup(t, p) == Failure(NotADirectory)
  {
    match Lookup(t, p)
    case Success(_) => Success(true)
    case Failure(e) => if e == NotFound then Success(false) else Failure(e)
  }

  /** In a valid tree no lookup of a path whose parent exists meets a file on the way. */
  lemma ParentPresentNoFileAbove(t: Tree, p: Path)
    requires Valid(t) && p != [] && p[..|p| - 1] in t && t[p[..|p| - 1]] == Dir
    ensures !FileAbove(t, p)
  {
    var pp := p[..|p| - 1];
    forall i | 0 <= i < |p| && p[..i] in t ensures t[p[..i]] == Dir {
      if i < |pp| {
        assert p[..i] == pp[..i];
      } else {
        assert p[..i] == pp;
      }
    }
  }

  // ---------------------------------------------------------------- create_dir_all

  /**
   * `create_dir_all(p)`: create `p` and each missing ancestor. It fails, and
   * creates nothing, when `p` or an ancestor of it is a file: with
   * `NotADirectory` when the file is above `p`, and with `AlreadyExists`
   * when `p` itself is the file.
   */
  function CreateDirAll(t: Tree, p: Path): (r: Result<Tree, IoError>)
    ensures r.Success? <==> forall i | 0 <= i <= |p| && p[..i] in t :: t[p[..i]] == Dir
    ensures r == Failure(NotADirectory) <==> FileAbove(t, p)
    ensures r == Failure(AlreadyExists) <==> !FileAbove(t, p) && p in t && t[p].File?
    ensures r.Success? ==> forall i | 0 <= i <= |p| :: p[..i] in r.value && r.value[p[..i]] == Dir
    ensures r.Success? ==> forall q | q in t :: q in r.value && r.value[q] == t[q]
    ensures r.Success? ==> forall q | q in r.value && q !in t :: IsPrefix(q, p) && r.value[q] == Dir
  {
    assert p[..|p|] == p;
    if FileAbove(t, p) then Failure(NotADirectory)
    else if p in t && t[p].File? then Failure(AlreadyExists)
    else Success(t + map i | 0 <= i <= |p| && p[..i] !in t :: p[..i] := Dir)
  }

  lemma CreateDirAllKeepsValid(t: Tree, p: Path)
    requires Valid(t) && CreateDirAll(t, p).Success?
    ensures Valid(CreateDirAll(t, p).value)
  {
    var u := CreateDirAll(t, p).value;
    forall k, i | k in u && 0 <= i < |k| ensures k[..i] in u && u[k[..i]] == Dir {
      if k in t {
        assert k[..i] in t;
      } else {
        assert IsPrefix(k, p);
        assert k[..i] == p[..i];
      }
    }
  }

  // ---------------------------------------------------------------- rename

  /** `to` followed by what lies below `from` in `q`. */
  function Rebase(q: Path, from: Path, to: Path): Path
    requires IsPrefix(from, q)
  {
    to + q[|from|..]
  }

  lemma RebaseInjective(from: Path, to: Path)
    ensures forall q1, q2 | IsPrefix(from, q1) && IsPrefix(from, q2) && Rebase(q1, from, to) == Rebase(q2, from, to) :: q1 == q2
  {
    forall q1, q2 | IsPrefix(from, q1) && IsPrefix(from, q2) && Rebase(q1, from, to) == Rebase(q2, from, to)
      ensures q1 == q2
    {
      assert q1[|from|..] == Rebase(q1, from, to)[|to|..];
      assert q2[|from|..] == Rebase(q2, from, to)[|to|..];
      assert q1 == q1[..|from|] + q1[|from|..];
      assert q2 == q2[..|from|] + q2[|from|..];
    }
  }

  /** The paths of `t` not at or below `from`. */
  function Kept(t: Tree, from: Path): (r: Tree)
    ensures forall q :: q in r <==> q in t && !IsPrefix(from, q)
    ensures forall q | q in r :: r[q] == t[q]
  {
    map q | q in t && !IsPrefix(from, q) :: t[q]
  }

  /** The paths of `t` at or below `from`, re-rooted at `to`. */
  function Shifted(t: Tree, from: Path, to: Path): (r: Tree)
    ensures forall q | q in t && IsPrefix(from, q) :: Rebase(q, from, to) in r && r[Rebase(q, from, to)] == t[q]
    ensures forall k | k in r :: exists q :: q in t && IsPrefix(from, q) && Rebase(q, from, to) == k
  {
    RebaseInjective(from, to);
    map q | q in t && IsPrefix(from, q) :: Rebase(q, from, to) := t[q]
  }

  /** The tree with everything at or below `from` re-rooted at `to`. */
  function Moved(t: Tree, from: Path, to: Path): Tree {
    Kept(t, from) + Shifted(t, from, to)
  }

  /**
   * `rename(from, to)` of a path onto a destination that does not exist: it
   * fails when `from` is missing, `to` exists, `to` lies inside `from`, or the
   * parent of `to` is missing; a lookup of either path that meets a file on
   * the way fails with `NotADirectory`. Otherwise every path at or below
   * `from` moves below `to` in one step.
   */
  function RenamePath(t: Tree, from: Path, to: Path): (r: Result<Tree, IoError>)
    ensures r.Success? <==>
      && from in t && to !in t && !IsPrefix(from, to) && to != [] && !FileAbove(t, to)
      && to[..|to| - 1] in t && t[to[..|to| - 1]] == Dir
    ensures r == Failure(NotADirectory) <==>
      || (from !in t && FileAbove(t, from))
      || (from in t && to !in t && !IsPrefix(from, to) && to != [] && FileAbove(t, to))
    ensures r == Failure(NotFound) <==>
      || (from !in t && !FileAbove(t, from))
      || (from in t && to !in t && !IsPrefix(from, to) && (to == [] || (!FileAbove(t, to) && to[..|to| - 1] !in t)))
    ensures r.Success? ==> r.value == Moved(t, from, to)
  {
    if from !in t then Failure(if FileAbove(t, from) then NotADirectory else NotFound)
    else if to in t then Failure(AlreadyExists)
    else if IsPrefix(from, to) then Failure(InvalidInput)
    else if to == [] then Failure(NotFound)
    else if FileAbove(t, to) then Failure(NotADirectory)
    else if to[..|to| - 1] !in t then Failure(NotFound)
    else
      assert to[..|to| - 1] == to[..|to| - 1][..|to| - 1];
      Success(Moved(t, from, to))
  }

  /** Two ancestors of one path are ancestors of each other. */
  lemma PrefixesOfOnePath(a: Path, b: Path, q: Path)
    ensures IsPrefix(a, q) && IsPrefix(b, q) ==> IsPrefix(a, b) || IsPrefix(b, a)
  {
    if IsPrefix(a, q) && IsPrefix(b, q) {
      if |a| <= |b| {
        assert b[..|a|] == q[..|a|];
      } else {
        assert a[..|b|] == q[..|b|];
      }
    }
  }

  /** Below `to`, `Moved` holds exactly what was below `from`. */
  lemma MovedBelow(t: Tree, from: Path, to: Path, k: Path)
    requires NothingUnder(t, to) && IsPrefix(to, k)
    ensures k in Moved(t, from, to) <==> from + k[|to|..] in t
    ensures k in Moved(t, from, to) ==> Moved(t, from, to)[k] == t[from + k[|to|..]]
  {
    var q := from + k[|to|..];
    assert IsPrefix(from, q);
    assert Rebase(q, from, to) == k by {
      assert q[|from|..] == k[|to|..];
      assert k == k[..|to|] + k[|to|..];
    }
    assert k !in Kept(t, from);
    if k in Shifted(t, from, to) {
      var q' :| q' in t && IsPrefix(from, q') && Rebase(q', from, to) == k;
      RebaseInjective(from, to);
      assert q' == q;
    }
  }

  /** Away from `to`, `Moved` holds what was there before, less the paths below `from`. */
  lemma MovedElsewhere(t: Tree, from: Path, to: Path, k: Path)
    requires !IsPrefix(to, k)
    ensures k in Moved(t, from, to) <==> k in t && !IsPrefix(from, k)
    ensures k in Moved(t, from, to) ==> Moved(t, from, to)[k] == t[k]
  {
    assert k !in Shifted(t, from, to) by {
      forall q' | q' in t && IsPrefix(from, q') ensures Rebase(q', from, to) != k {
        assert Rebase(q', from, to)[..|to|] == to;
      }
    }
  }

  /** A prefix of `b[..i]` is a prefix of `b`. */
  lemma PrefixOfTake(a: Path, b: Path, i: nat)
    requires i <= |b|
    ensures IsPrefix(a, b[..i]) ==> IsPrefix(a, b)
  {
    if |a| <= i {
      assert b[..i][..|a|] == b[..|a|];
    }
  }

  /** One instance of `Valid` for the renamed tree: the `i`-th ancestor of an existing path `k`. */
  lemma RenamedAncestorIsDir(t: Tree, from: Path, to: Path, k: Path, i: nat)
    requires Valid(t) && RenamePath(t, from, to).Success?
    requires k in Moved(t, from, to) && i < |k|
    ensures k[..i] in Moved(t, from, to) && Moved(t, from, to)[k[..i]] == Dir
  {
    ValidNothingUnder(t, to);
    if !IsPrefix(to, k) {
      AncestorAwayFromTo(t, from, to, k, i);
    } else if i < |to| {
      AncestorAboveTo(t, from, to, k, i);
    } else {
      AncestorBelowTo(t, from, to, k, i);
    }
  }

  lemma AncestorAwayFromTo(t: Tree, from: Path, to: Path, k: Path, i: nat)
    requires Valid(t) && NothingUnder(t, to)
    requires k in Moved(t, from, to) && i < |k| && !IsPrefix(to, k)
    ensures k[..i] in Moved(t, from, to) && Moved(t, from, to)[k[..i]] == Dir
  {
    MovedElsewhere(t, from, to, k);
    assert k[..i] in t;
    PrefixOfTake(from, k, i);
    MovedElsewhere(t, from, to, k[..i]);
  }

  lemma AncestorAboveTo(t: Tree, from: Path, to: Path, k: Path, i: nat)
    requires Valid(t) && RenamePath(t, from, to).Success?
    requires i < |to| && IsPrefix(to, k)
    ensures k[..i] in Moved(t, from, to) && Moved(t, from, to)[k[..i]] == Dir
  {
    var pto := to[..|to| - 1];
    assert k[..i] == pto[..i];
    if i < |pto| { assert pto[..i] in t; } else { assert pto[..i] == pto; }
    PrefixOfTake(from, to, i);
    assert !IsPrefix(to, k[..i]);
    MovedElsewhere(t, from, to, k[..i]);
  }

  lemma AncestorBelowTo(t: Tree, from: Path, to: Path, k: Path, i: nat)
    requires Valid(t) && NothingUnder(t, to)
    requires k in Moved(t, from, to) && |to| <= i < |k| && IsPrefix(to, k)
    ensures k[..i] in Moved(t, from, to) && Moved(t, from, to)[k[..i]] == Dir
  {
    MovedBelow(t, from, to, k);
    var q := from + k[|to|..];
    var j := |from| + i - |to|;
    assert q[..j] in t;
    assert q[..j] == from + k[..i][|to|..];
    assert IsPrefix(to, k[..i]);
    MovedBelow(t, from, to, k[..i]);
  }

  lemma RenameKeepsValid(t: Tree, from: Path, to: Path)
    requires Valid(t) && RenamePath(t, from, to).Success?
    ensures Valid(RenamePath(t, from, to).value)
  {
    assert from != [] by { assert !IsPrefix(from, to); }
    MovedElsewhere(t, from, to, []);
    forall k, i | k in Moved(t, from, to) && 0 <= i < |k|
      ensures k[..i] in Moved(t, from, to) && Moved(t, from, to)[k[..i]] == Dir
    {
      RenamedAncestorIsDir(t, from, to, k, i);
    }
  }

  // ---------------------------------------------------------------- write, remove_file

  /**
   * `write(p, content)`: create or truncate the file `p`. It fails when the
   * parent of `p` is missing (`NotADirectory` when the lookup meets a file
   * on the way, `NotFound` otherwise), or `p` is a directory.
   */
  function WriteFile(t: Tree, p: Path, content: string): (r: Result<Tree, IoError>)
    ensures r.Success? <==>
      p != [] && !FileAbove(t, p) && p[..|p| - 1] in t && t[p[..|p| - 1]] == Dir && !(p in t && t[p] == Dir)
    ensures r == Failure(NotADirectory) <==> p != [] && FileAbove(t, p)
    ensures r == Failure(NotFound) <==> p != [] && !FileAbove(t, p) && p[..|p| - 1] !in t
    ensures r == Failure(IsADirectory) <==> p == [] || (!FileAbove(t, p) && p[..|p| - 1] in t && p in t && t[p] == Dir)
    ensures r.Success? ==> r.value == t[p := File(content)]
  {
    if p == [] then Failure(IsADirectory)
    else if FileAbove(t, p) then Failure(NotADirectory)
    else if p[..|p| - 1] !in t then Failure(NotFound)
    else if p in t && t[p] == Dir then Failure(IsADirectory)
    else
      assert p[..|p| - 1] == p[..|p| - 1][..|p| - 1];
      Success(t[p := File(content)])
  }

  lemma WriteKeepsValid(t: Tree, p: Path, content: string)
    requires Valid(t) && WriteFile(t, p, content).Success?
    ensures Valid(WriteFile(t, p, content).value)
  {
    var u := WriteFile(t, p, content).value;
    var pp := p[..|p| - 1];
    forall k, i | k in u && 0 <= i < |k| ensures k[..i] in u && u[k[..i]] == Dir {
      if k == p {
        if i < |pp| {
          assert k[..i] == pp[..i];
          assert pp[..i] in t;
        } else {
          assert k[..i] == pp;
        }
        assert k[..i] != p;
      } else {
        assert k[..i] in t;
        assert k[..i] != p;
      }
    }
  }

  /**
   * `remove_file(p)`: it fails when `p` is a directory, or when `p` is
   * missing, with the lookup's error.
   */
  function RemoveFile(t: Tree, p: Path): (r: Result<Tree, IoError>)
    ensures r.Success? <==> p in t && t[p].File?
    ensures r == Failure(NotADirectory) <==> p !in t && FileAbove(t, p)
    ensures r == Failure(NotFound) <==> p !in t && !FileAbove(t, p)
    ensures r == Failure(IsADirectory) <==> p in t && t[p] == Dir
    ensures r.Success? ==> r.value == t - {p}
  {
    match Lookup(t, p)
    case Failure(e) => Failure(e)
    case Success(node) => if node == Dir then Failure(IsADirectory) else Success(t - {p})
  }

  lemma RemoveKeepsValid(t: Tree, p: Path)
    requires Valid(t) && RemoveFile(t, p).Success?
    ensures Valid(RemoveFile(t, p).value)
  {
    var u := RemoveFile(t, p).value;
    forall k, i | k in u && 0 <= i < |k| ensures k[..i] in u && u[k[..i]] == Dir {
      assert k[..i] in t;
    }
  }
}
