/**
 * The `MoveDirectory` action: move a directory from `src` to `dest`, and on
 * revert move it back.
 *
 * `Transfer(t, from, to)` is the procedure both directions run on a tree
 * `t`: the prioritised check, creating the destination's parent when it is
 * missing, then one rename. `Execute` runs it as `(src, dest)` and `Revert`
 * as `(dest, src)`, step by step on a `Machine`.
 */
module MoveDirectoryAction {
  import opened Results
  import opened FileTree
  import opened Actions
  import opened Host

  const Tag := "move_directory"

  datatype MoveDirectory = MoveDirectory(src: Path, dest: Path)

  /**
   * `MoveDirectory::plan`: it records the two paths and looks at nothing, so
   * it never fails and the action always starts `Uncompleted`.
   */
  function Plan(src: Path, dest: Path): (r: Result<StatefulAction<MoveDirectory>, ActionError>)
    ensures r.Success?
    ensures r.value.action.src == src && r.value.action.dest == dest
    ensures r.value.state == Uncompleted
  {
    Success(StatefulAction(MoveDirectory(src, dest), Uncompleted))
  }

  // ---------------------------------------------------------------- the procedure, on trees

  /**
   * `check_src_and_dest(from, to)`, as a function of the tree: the metadata
   * of `from`, then whether `to` exists, then the kind of `from`.
   */
  function Check(t: Tree, from: Path, to: Path): Outcome<ActionErrorKind> {
    match Lookup(t, from)
    case Failure(e) => Fail(GettingMetadata(from, e))
    case Success(node) =>
      match Exists(t, to)
      case Failure(e) => Fail(GettingMetadata(to, e))
      case Success(present) =>
        if present then Fail(DirExists(to))
        else if node != Dir then Fail(PathWasNotDirectory(from))
        else Pass
  }

  /**
   * The check reports the first of its failures that applies, in this order:
   * the source cannot be looked up, the destination cannot be looked up (a
   * file lies on its way), the destination exists, the source is not a
   * directory.
   */
  lemma CheckPriority(t: Tree, from: Path, to: Path)
    ensures from !in t ==>
      Check(t, from, to) == Fail(GettingMetadata(from, if FileAbove(t, from) then NotADirectory else NotFound))
    ensures from in t && to !in t && FileAbove(t, to) ==> Check(t, from, to) == Fail(GettingMetadata(to, NotADirectory))
    ensures from in t && to in t ==> Check(t, from, to) == Fail(DirExists(to))
    ensures from in t && to !in t && !FileAbove(t, to) && t[from] != Dir ==> Check(t, from, to) == Fail(PathWasNotDirectory(from))
    ensures Check(t, from, to) == Pass <==> from in t && t[from] == Dir && to !in t && !FileAbove(t, to)
  {
  }

  /**
   * A file on the destination's way: moving `/a` to `/f/b`, where `/f` is a
   * file, stops at the check because looking `/f/b` up fails, and nothing
   * changes.
   */
  lemma FileOnDestinationWay()
    ensures var t := map[[] := Dir, ["a"] := Dir, ["f"] := File("")];
      Transfer(t, ["a"], ["f", "b"]) == Step(Fail(GettingMetadata(["f", "b"], NotADirectory)), t, [])
  {
    var t := map[[] := Dir, ["a"] := Dir, ["f"] := File("")];
    assert ["f", "b"][..1] == ["f"];
    assert FileAbove(t, ["f", "b"]);
  }

  /** The parent of `to`, when it has one and `try_exists` reports it absent. */
  function MissingParent(t: Tree, to: Path): (r: Option<Path>)
    ensures r.Some? <==> Parent(to).Some? && Exists(t, Parent(to).value) == Success(false)
    ensures r.Some? <==> Parent(to).Some? && Parent(to).value !in t && !FileAbove(t, Parent(to).value)
    ensures r.Some? ==> r.value == Parent(to).value
  {
    match Parent(to)
    case None => None
    case Some(p) => if Exists(t, p) == Success(false) then Some(p) else None
  }

  /** The tree after the parent step, and the effects that step had. */
  datatype Prep = Prep(tree: Tree, made: seq<Effect>)

  /**
   * The parent step: `try_exists` on the parent of `to`, and when it is
   * absent, `create_dir_all` of it.
   */
  function ParentStep(t: Tree, to: Path): Result<Prep, ActionErrorKind> {
    match Parent(to)
    case None => Success(Prep(t, []))
    case Some(p) =>
      match Exists(t, p)
      case Failure(e) => Failure(GettingMetadata(p, e))
      case Success(present) =>
        if present then Success(Prep(t, []))
        else
          match CreateDirAll(t, p)
          case Success(u) => Success(Prep(u, [CreatedDirAll(p)]))
          case Failure(e) => Failure(CreateDirectory(p, e))
  }

  /**
   * The parent step keeps every existing path and adds only directories on
   * the way to the parent, which exists afterwards. It fails only when the
   * lookup of the absent parent meets a file, and then it has created
   * nothing; `create_dir_all` itself never fails here, since the lookup
   * has already ruled out every file on the way.
   */
  lemma ParentStepSpec(t: Tree, to: Path)
    ensures ParentStep(t, to).Failure? <==>
      Parent(to).Some? && Parent(to).value !in t && FileAbove(t, Parent(to).value)
    ensures ParentStep(t, to).Failure? ==> ParentStep(t, to).error == GettingMetadata(Parent(to).value, NotADirectory)
    ensures ParentStep(t, to).Success? ==> forall q | q in t :: q in ParentStep(t, to).value.tree && ParentStep(t, to).value.tree[q] == t[q]
    ensures ParentStep(t, to).Success? ==> forall q | q in ParentStep(t, to).value.tree && q !in t ::
      Parent(to).Some? && IsPrefix(q, Parent(to).value) && ParentStep(t, to).value.tree[q] == Dir
    ensures ParentStep(t, to).Success? && Parent(to).Some? ==> Parent(to).value in ParentStep(t, to).value.tree
    ensures ParentStep(t, to).Success? && Parent(to).Some? && !FileAbove(t, to) ==>
      ParentStep(t, to).value.tree[Parent(to).value] == Dir
    ensures ParentStep(t, to).Success? ==>
      ParentStep(t, to).value.made == if MissingParent(t, to).Some? then [CreatedDirAll(Parent(to).value)] else []
  {
    if MissingParent(t, to).Some? {
      var p := MissingParent(t, to).value;
      assert p[..|p|] == p;
    }
  }

  /** The tree the rename starts from. */
  function Prepared(t: Tree, to: Path): (u: Tree)
    ensures forall q | q in t :: q in u && u[q] == t[q]
    ensures forall q | q in u && q !in t :: Parent(to).Some? && IsPrefix(q, Parent(to).value) && u[q] == Dir
  {
    ParentStepSpec(t, to);
    match ParentStep(t, to)
    case Success(prep) => prep.tree
    case Failure(_) => t
  }

  /** What one run of the procedure does: its result, the new tree, and the effects in order. */
  datatype Step = Step(outcome: Outcome<ActionErrorKind>, tree: Tree, effects: seq<Effect>)

  /** The rename, after the effects `before` of the earlier steps. */
  function RenameStep(u: Tree, from: Path, to: Path, before: seq<Effect>): (r: Step)
    ensures r.outcome == Pass <==> RenamePath(u, from, to).Success?
    ensures r.outcome == Pass ==> r.tree == Moved(u, from, to) && r.effects == before + [Renamed(from, to)]
    ensures r.outcome.Fail? ==> r.tree == u && r.effects == before && r.outcome.error == Rename(from, to, RenamePath(u, from, to).error)
  {
    match RenamePath(u, from, to)
    case Failure(e) => Step(Fail(Rename(from, to, e)), u, before)
    case Success(v) => Step(Pass, v, before + [Renamed(from, to)])
  }

  /** The body of `execute` (`from, to` = `src, dest`) and of `revert` (`dest, src`). */
  function Transfer(t: Tree, from: Path, to: Path): Step {
    var c := Check(t, from, to);
    if c.Fail? then Step(c, t, [])
    else
      match ParentStep(t, to)
      case Failure(k) => Step(Fail(k), t, [])
      case Success(prep) => RenameStep(prep.tree, from, to, prep.made)
  }

  /**
   * A failure leaves every existing path as it was: a failed check changes
   * nothing at all, and a failed rename leaves at most the new parent
   * directories behind.
   */
  lemma TransferFailure(t: Tree, from: Path, to: Path)
    requires Transfer(t, from, to).outcome.Fail?
    ensures Check(t, from, to).Fail? ==> Transfer(t, from, to) == Step(Check(t, from, to), t, [])
    ensures Transfer(t, from, to).tree == t || Transfer(t, from, to).tree == Prepared(t, to)
    ensures forall q | q in t :: q in Transfer(t, from, to).tree && Transfer(t, from, to).tree[q] == t[q]
    ensures Transfer(t, from, to).effects == [] || Transfer(t, from, to).effects == [CreatedDirAll(Parent(to).value)]
  {
  }

  /**
   * When the procedure can succeed on a real tree: the source is a
   * directory, the destination is free and not inside the source, and no
   * file stands where the destination's ancestors should be.
   */
  ghost predicate CanMove(t: Tree, from: Path, to: Path) {
    && from in t && t[from] == Dir && to !in t && !IsPrefix(from, to)
    && forall i | 0 <= i < |to| && to[..i] in t :: t[to[..i]] == Dir
  }

  /** The procedure succeeds exactly when it can. */
  lemma TransferSucceedsIff(t: Tree, from: Path, to: Path)
    requires Valid(t)
    ensures Transfer(t, from, to).outcome == Pass <==> CanMove(t, from, to)
  {
    if Transfer(t, from, to).outcome == Pass {
      SuccessMeansCanMove(t, from, to);
    }
    if CanMove(t, from, to) {
      CanMoveSucceeds(t, from, to);
    }
  }

  lemma SuccessMeansCanMove(t: Tree, from: Path, to: Path)
    requires Valid(t) && Transfer(t, from, to).outcome == Pass
    ensures CanMove(t, from, to)
  {
    CheckPriority(t, from, to);
  }

  lemma CanMoveSucceeds(t: Tree, from: Path, to: Path)
    requires Valid(t) && CanMove(t, from, to)
    ensures Transfer(t, from, to).outcome == Pass
  {
    CheckPriority(t, from, to);
    assert Check(t, from, to) == Pass;
    var p := to[..|to| - 1];
    assert p == to[..|to| - 1];
    if p !in t {
      assert !FileAbove(t, p) by {
        forall i | 0 <= i < |p| && p[..i] in t ensures t[p[..i]] == Dir {
          assert p[..i] == to[..i];
        }
      }
      assert p[..|p|] == p;
      var u := CreateDirAll(t, p).value;
      assert RenamePath(u, from, to).Success?;
    }
  }

  lemma PreparedKeepsValid(t: Tree, to: Path)
    ensures Valid(t) ==> Valid(Prepared(t, to))
  {
    if Valid(t) && MissingParent(t, to).Some? && CreateDirAll(t, MissingParent(t, to).value).Success? {
      CreateDirAllKeepsValid(t, MissingParent(t, to).value);
    }
  }

  lemma TransferKeepsValid(t: Tree, from: Path, to: Path)
    ensures Valid(t) ==> Valid(Transfer(t, from, to).tree)
  {
    if Valid(t) && Check(t, from, to).Pass? && ParentStep(t, to).Success? {
      PreparedKeepsValid(t, to);
      var u := Prepared(t, to);
      if RenamePath(u, from, to).Success? {
        RenameKeepsValid(u, from, to);
      }
    }
  }

  /**
   * What a successful run has established just before its rename, about the
   * prepared tree `u` and the parent `p` of `to`; stated once so that the
   * point lemmas below start from a small context.
   */
  ghost predicate Ready(t: Tree, u: Tree, from: Path, to: Path, p: Path) {
    && Valid(t) && Valid(u) && NothingUnder(t, to) && NothingUnder(u, to)
    && Parent(to) == Some(p) && p in u && u[p] == Dir
    && from in t && t[from] == Dir && !IsPrefix(from, to) && !IsPrefix(to, from)
    && (forall q | q in t :: q in u && u[q] == t[q])
    && (forall q | q in u && q !in t :: IsPrefix(q, p) && u[q] == Dir)
  }

  lemma TransferReady(t: Tree, from: Path, to: Path)
    requires Valid(t) && Transfer(t, from, to).outcome == Pass
    ensures Parent(to).Some?
    ensures Ready(t, Prepared(t, to), from, to, Parent(to).value)
    ensures Transfer(t, from, to).tree == Moved(Prepared(t, to), from, to)
    ensures Transfer(t, from, to).effects ==
      (if Parent(to).value in t then [] else [CreatedDirAll(Parent(to).value)]) + [Renamed(from, to)]
  {
    var u := Prepared(t, to);
    PreparedKeepsValid(t, to);
    ValidNothingUnder(t, to);
    ValidNothingUnder(u, to);
    assert !IsPrefix(to, from);
  }

  lemma SubtreeMoved(t: Tree, u: Tree, from: Path, to: Path, p: Path, x: Path)
    requires Ready(t, u, from, to, p)
    ensures to + x in Moved(u, from, to) <==> from + x in t
    ensures from + x in t ==> Moved(u, from, to)[to + x] == t[from + x]
  {
    assert (to + x)[|to|..] == x;
    MovedBelow(u, from, to, to + x);
  }

  lemma OutsideKept(t: Tree, u: Tree, from: Path, to: Path, p: Path, q: Path)
    requires Ready(t, u, from, to, p) && q in t && !IsPrefix(from, q)
    ensures q in Moved(u, from, to) && Moved(u, from, to)[q] == t[q]
  {
    MovedElsewhere(u, from, to, q);
  }

  lemma NewOnlyAbove(t: Tree, u: Tree, from: Path, to: Path, p: Path, q: Path)
    requires Ready(t, u, from, to, p) && q in Moved(u, from, to) && q !in t && !IsPrefix(to, q)
    ensures IsPrefix(q, p) && Moved(u, from, to)[q] == Dir
  {
    MovedElsewhere(u, from, to, q);
  }

  lemma SourceGoneParentKept(t: Tree, u: Tree, from: Path, to: Path, p: Path)
    requires Ready(t, u, from, to, p)
    ensures from !in Moved(u, from, to)
    ensures p in Moved(u, from, to) && Moved(u, from, to)[p] == Dir
  {
    MovedElsewhere(u, from, to, from);
    assert to[..|p|] == p;
    PrefixOfTake(from, to, |p|);
    MovedElsewhere(u, from, to, p);
  }

  /**
   * After a successful run: the source is gone, the destination's parent is a
   * directory, the destination holds exactly the subtree the source held,
   * every path outside the source is kept, the only new paths besides the
   * destination's subtree are parent directories, and the effects are the
   * parent's creation (only when it was missing) followed by the rename.
   */
  lemma TransferSuccess(t: Tree, from: Path, to: Path)
    requires Valid(t) && Transfer(t, from, to).outcome == Pass
    ensures from !in Transfer(t, from, to).tree
    ensures Parent(to).Some? && Parent(to).value in Transfer(t, from, to).tree
    ensures Transfer(t, from, to).tree[Parent(to).value] == Dir
    ensures forall x :: to + x in Transfer(t, from, to).tree <==> from + x in t
    ensures forall x | from + x in t :: Transfer(t, from, to).tree[to + x] == t[from + x]
    ensures forall q | q in t && !IsPrefix(from, q) :: q in Transfer(t, from, to).tree && Transfer(t, from, to).tree[q] == t[q]
    ensures forall q | q in Transfer(t, from, to).tree && q !in t && !IsPrefix(to, q) ::
      IsPrefix(q, Parent(to).value) && Transfer(t, from, to).tree[q] == Dir
    ensures Transfer(t, from, to).effects ==
      (if Parent(to).value in t then [] else [CreatedDirAll(Parent(to).value)]) + [Renamed(from, to)]
    ensures Valid(Transfer(t, from, to).tree)
  {
    TransferKeepsValid(t, from, to);
    TransferReady(t, from, to);
    var u := Prepared(t, to);
    var p := Parent(to).value;
    SourceGoneParentKept(t, u, from, to, p);
    forall x ensures to + x in Moved(u, from, to) <==> from + x in t {
      SubtreeMoved(t, u, from, to, p, x);
    }
    forall x | from + x in t ensures Moved(u, from, to)[to + x] == t[from + x] {
      SubtreeMoved(t, u, from, to, p, x);
    }
    forall q | q in t && !IsPrefix(from, q) ensures q in Moved(u, from, to) && Moved(u, from, to)[q] == t[q] {
      OutsideKept(t, u, from, to, p, q);
    }
    forall q | q in Moved(u, from, to) && q !in t && !IsPrefix(to, q) ensures IsPrefix(q, p) && Moved(u, from, to)[q] == Dir {
      NewOnlyAbove(t, u, from, to, p, q);
    }
  }

  /** Moving `from` to `to` and back gives the tree back. */
  lemma MoveBackRestores(u: Tree, from: Path, to: Path)
    requires NothingUnder(u, to) && NothingUnder(Moved(u, from, to), from)
    ensures Moved(Moved(u, from, to), to, from) == u
  {
    var v := Moved(u, from, to);
    var w := Moved(v, to, from);
    forall k ensures (k in w <==> k in u) && (k in u ==> w[k] == u[k]) {
      if IsPrefix(from, k) {
        var x := k[|from|..];
        MovedBelow(v, to, from, k);
        assert (to + x)[|to|..] == x;
        assert k == from + x;
        MovedBelow(u, from, to, to + x);
      } else {
        MovedElsewhere(v, to, from, k);
        if IsPrefix(to, k) {
          assert k !in u;
        } else {
          MovedElsewhere(u, from, to, k);
        }
      }
    }
  }

  /** After the move nothing lies under the source any more. */
  lemma NothingLeftUnderSource(u: Tree, from: Path, to: Path)
    requires !IsPrefix(from, to) && !IsPrefix(to, from)
    ensures NothingUnder(Moved(u, from, to), from)
  {
    forall q | q in Moved(u, from, to) ensures !IsPrefix(from, q) {
      PrefixesOfOnePath(from, to, q);
      if !IsPrefix(to, q) {
        MovedElsewhere(u, from, to, q);
      }
    }
  }

  /** After the move, the reverse run's check passes and the source's parent is still a directory. */
  lemma ReverseChecks(t: Tree, u: Tree, from: Path, to: Path, p: Path)
    requires Ready(t, u, from, to, p)
    ensures Check(Moved(u, from, to), to, from) == Pass
    ensures from != [] && from[..|from| - 1] in Moved(u, from, to) && Moved(u, from, to)[from[..|from| - 1]] == Dir
  {
    SubtreeMoved(t, u, from, to, p, []);
    assert to + [] == to && from + [] == from;
    SourceGoneParentKept(t, u, from, to, p);
    assert from != [] by { assert IsPrefix([], to); }
    var pa := from[..|from| - 1];
    assert pa in t && t[pa] == Dir;
    assert !IsPrefix(from, pa);
    OutsideKept(t, u, from, to, p, pa);
    ReadyRenameValid(t, u, from, to, p);
    ParentPresentNoFileAbove(Moved(u, from, to), from);
    CheckPriority(Moved(u, from, to), to, from);
  }

  /** The rename of a successful run keeps the prepared tree valid. */
  lemma ReadyRenameValid(t: Tree, u: Tree, from: Path, to: Path, p: Path)
    requires Ready(t, u, from, to, p)
    ensures RenamePath(u, from, to) == Success(Moved(u, from, to)) && Valid(Moved(u, from, to))
  {
    ParentPresentNoFileAbove(u, to);
    RenameKeepsValid(u, from, to);
  }

  /** The reverse run's check and parent step pass through to a rename that succeeds. */
  lemma ReverseReachesRename(t: Tree, u: Tree, from: Path, to: Path, p: Path)
    requires Ready(t, u, from, to, p)
    ensures Transfer(Moved(u, from, to), to, from) == Step(Pass, Moved(Moved(u, from, to), to, from), [Renamed(to, from)])
  {
    ReverseChecks(t, u, from, to, p);
    PassingStep(Moved(u, from, to), to, from);
  }

  /** A run whose check passes, whose destination's parent is a directory and which does not move into itself, renames in one step. */
  lemma PassingStep(v: Tree, from: Path, to: Path)
    requires Check(v, from, to) == Pass && !IsPrefix(from, to)
    requires to != [] && to[..|to| - 1] in v && v[to[..|to| - 1]] == Dir
    ensures Transfer(v, from, to) == Step(Pass, Moved(v, from, to), [Renamed(from, to)])
  {
    assert ParentStep(v, to) == Success(Prep(v, []));
  }

  /**
   * Round trip: after a successful `execute`, `revert` succeeds, renames the
   * directory back as its only effect, and leaves the tree as it was before
   * `execute` except for the parent directories `execute` created.
   */
  lemma ExecuteRevertRoundTrip(t: Tree, src: Path, dest: Path)
    requires Valid(t) && Transfer(t, src, dest).outcome == Pass
    ensures Transfer(Transfer(t, src, dest).tree, dest, src) == Step(Pass, Prepared(t, dest), [Renamed(dest, src)])
  {
    TransferReady(t, src, dest);
    var u := Prepared(t, dest);
    var p := Parent(dest).value;
    ReverseReachesRename(t, u, src, dest, p);
    NothingLeftUnderSource(u, src, dest);
    MoveBackRestores(u, src, dest);
  }

  // ---------------------------------------------------------------- the action on a machine

  /** `check_src_and_dest`: the metadata query, then the existence query, then the kind of the source. */
  method CheckSrcAndDest(h: Machine, src: Path, dest: Path) returns (r: Outcome<ActionErrorKind>)
    ensures r == Check(h.tree, src, dest)
    ensures r == Pass <==> src in h.tree && h.tree[src] == Dir && dest !in h.tree && !FileAbove(h.tree, dest)
  {
    CheckPriority(h.tree, src, dest);
    var srcMetadata := h.Metadata(src);
    if srcMetadata.Failure? {
      return Fail(GettingMetadata(src, srcMetadata.error));
    }
    var destExists := h.TryExists(dest);
    if destExists.Failure? {
      return Fail(GettingMetadata(dest, destExists.error));
    }
    if destExists.value {
      return Fail(DirExists(dest));
    }
    if srcMetadata.value != Dir {
      return Fail(PathWasNotDirectory(src));
    }
    return Pass;
  }

  /** Create the parent directory of `path` when it does not exist, as `execute` and `revert` both do. */
  method CreateMissingParent(h: Machine, path: Path) returns (r: Outcome<ActionErrorKind>)
    modifies h
    ensures match ParentStep(old(h.tree), path)
      case Failure(k) => r == Fail(k) && h.tree == old(h.tree) && h.effects == old(h.effects)
      case Success(prep) => r == Pass && h.tree == prep.tree && h.effects == old(h.effects) + prep.made
  {
    match Parent(path) {
      case None =>
      case Some(parent) =>
        var parentExists := h.TryExists(parent);
        match parentExists {
          case Failure(e) => return Fail(GettingMetadata(parent, e));
          case Success(present) =>
            if !present {
              var created := h.CreateDirAll(parent);
              match created {
                case Fail(e) => return Fail(CreateDirectory(parent, e));
                case Pass =>
              }
            }
        }
    }
    return Pass;
  }

  /** `execute`: check, create the missing parent of `dest`, rename `src` to `dest`. */
  method Execute(m: MoveDirectory, h: Machine) returns (r: Outcome<ActionError>)
    modifies h
    ensures h.tree == Transfer(old(h.tree), m.src, m.dest).tree
    ensures h.effects == old(h.effects) + Transfer(old(h.tree), m.src, m.dest).effects
    ensures r == TagError(Tag, Transfer(old(h.tree), m.src, m.dest).outcome)
  {
    var checked := CheckSrcAndDest(h, m.src, m.dest);
    if checked.Fail? {
      return Fail(ActionError(Tag, checked.error));
    }
    var prepared := CreateMissingParent(h, m.dest);
    if prepared.Fail? {
      return Fail(ActionError(Tag, prepared.error));
    }
    var renamed := h.Rename(m.src, m.dest);
    if renamed.Fail? {
      return Fail(ActionError(Tag, Rename(m.src, m.dest, renamed.error)));
    }
    return Pass;
  }

  /** `revert`: the same steps with the roles swapped; check `(dest, src)`, create the missing parent of `src`, rename `dest` to `src`. */
  method Revert(m: MoveDirectory, h: Machine) returns (r: Outcome<ActionError>)
    modifies h
    ensures h.tree == Transfer(old(h.tree), m.dest, m.src).tree
    ensures h.effects == old(h.effects) + Transfer(old(h.tree), m.dest, m.src).effects
    ensures r == TagError(Tag, Transfer(old(h.tree), m.dest, m.src).outcome)
  {
    var checked := CheckSrcAndDest(h, m.dest, m.src);
    if checked.Fail? {
      return Fail(ActionError(Tag, checked.error));
    }
    var prepared := CreateMissingParent(h, m.src);
    if prepared.Fail? {
      return Fail(ActionError(Tag, prepared.error));
    }
    var renamed := h.Rename(m.dest, m.src);
    if renamed.Fail? {
      return Fail(ActionError(Tag, Rename(m.dest, m.src, renamed.error)));
    }
    return Pass;
  }

  // ---------------------------------------------------------------- descriptions

  /** `tracing_synopsis`. */
  function TracingSynopsis(m: MoveDirectory): (r: string)
    ensures r == "Move directory `" + Display(m.src) + "` to `" + Display(m.dest) + "`"
  {
    "Move directory `" + Display(m.src) + "` to `" + Display(m.dest) + "`"
  }

  /** `execute_description`: the synopsis alone, with no explanation. */
  function ExecuteDescription(m: MoveDirectory): (r: seq<ActionDescription>)
    ensures r == [ActionDescription(TracingSynopsis(m), [])]
  {
    [ActionDescription(TracingSynopsis(m), [])]
  }

  /** `revert_description`: the move back, `dest` first. */
  function RevertDescription(m: MoveDirectory): (r: seq<ActionDescription>)
    ensures |r| == 1 && r[0].explanation == []
    ensures r[0].description == "Move directory `" + Display(m.dest) + "` back to `" + Display(m.src) + "`"
  {
    [ActionDescription("Move directory `" + Display(m.dest) + "` back to `" + Display(m.src) + "`", [])]
  }
}
