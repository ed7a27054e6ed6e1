/**
 * The target machine the actions change: its file system, the log of what was
 * done to it in order, and, standing in for the external tools, the set of
 * command lines that fail on it.
 */
module Host {
  import opened Results
  import opened FileTree
  import opened Actions

  /** One thing that happened to the machine: a file-system change that succeeded, or a command that was run. */
  datatype Effect =
    | CreatedDirAll(path: Path)
    | Renamed(from: Path, to: Path)
    | Wrote(path: Path, content: string)
    | RemovedFile(path: Path)
    | Ran(command: Command)

  class Machine {
    var tree: Tree
    var effects: seq<Effect>
    const failing: set<Command>

    constructor (tree: Tree, failing: set<Command>)
      ensures this.tree == tree && effects == [] && this.failing == failing
    {
      this.tree := tree;
      this.effects := [];
      this.failing := failing;
    }

    /** `tokio::fs::metadata`. */
    method Metadata(p: Path) returns (r: Result<Node, IoError>)
      ensures r == Lookup(tree, p)
    {
      if p in tree {
        r := Success(tree[p]);
      } else if FileAbove(tree, p) {
        r := Failure(NotADirectory);
      } else {
        r := Failure(NotFound);
      }
    }

    /** `tokio::fs::try_exists`: `metadata`, with `NotFound` read as `false`. */
    method TryExists(p: Path) returns (r: Result<bool, IoError>)
      ensures r == Exists(tree, p)
    {
      var m := Metadata(p);
      if m.Success? {
        r := Success(true);
      } else if m.error == NotFound {
        r := Success(false);
      } else {
        r := Failure(m.error);
      }
    }

    /** `tokio::fs::create_dir_all`. */
    method CreateDirAll(p: Path) returns (r: Outcome<IoError>)
      modifies this
      ensures var c := FileTree.CreateDirAll(old(tree), p);
        if c.Success? then r == Pass && tree == c.value && effects == old(effects) + [CreatedDirAll(p)]
        else r == Fail(c.error) && tree == old(tree) && effects == old(effects)
      ensures Valid(old(tree)) ==> Valid(tree)
    {
      if Valid(tree) && FileTree.CreateDirAll(tree, p).Success? {
        CreateDirAllKeepsValid(tree, p);
      }
      var c := FileTree.CreateDirAll(tree, p);
      if c.Success? {
        tree := c.value;
        effects := effects + [CreatedDirAll(p)];
        r := Pass;
      } else {
        r := Fail(c.error);
      }
    }

    /** `tokio::fs::rename`. */
    method Rename(from: Path, to: Path) returns (r: Outcome<IoError>)
      modifies this
      ensures var c := RenamePath(old(tree), from, to);
        if c.Success? then r == Pass && tree == c.value && effects == old(effects) + [Renamed(from, to)]
        else r == Fail(c.error) && tree == old(tree) && effects == old(effects)
      ensures Valid(old(tree)) ==> Valid(tree)
    {
      if Valid(tree) && RenamePath(tree, from, to).Success? {
        RenameKeepsValid(tree, from, to);
      }
      var c := RenamePath(tree, from, to);
      if c.Success? {
        tree := c.value;
        effects := effects + [Renamed(from, to)];
        r := Pass;
      } else {
        r := Fail(c.error);
      }
    }

    /** `tokio::fs::write`. */
    method Write(p: Path, content: string) returns (r: Outcome<IoError>)
      modifies this
      ensures var c := WriteFile(old(tree), p, content);
        if c.Success? then r == Pass && tree == c.value && effects == old(effects) + [Wrote(p, content)]
        else r == Fail(c.error) && tree == old(tree) && effects == old(effects)
      ensures Valid(old(tree)) ==> Valid(tree)
    {
      if Valid(tree) && WriteFile(tree, p, content).Success? {
        WriteKeepsValid(tree, p, content);
      }
      var c := WriteFile(tree, p, content);
      if c.Success? {
        tree := c.value;
        effects := effects + [Wrote(p, content)];
        r := Pass;
      } else {
        r := Fail(c.error);
      }
    }

    /** `tokio::fs::remove_file`. */
    method RemoveFile(p: Path) returns (r: Outcome<IoError>)
      modifies this
      ensures var c := FileTree.RemoveFile(old(tree), p);
        if c.Success? then r == Pass && tree == c.value && effects == old(effects) + [RemovedFile(p)]
        else r == Fail(c.error) && tree == old(tree) && effects == old(effects)
      ensures Valid(old(tree)) ==> Valid(tree)
    {
      if Valid(tree) && FileTree.RemoveFile(tree, p).Success? {
        RemoveKeepsValid(tree, p);
      }
      var c := FileTree.RemoveFile(tree, p);
      if c.Success? {
        tree := c.value;
        effects := effects + [RemovedFile(p)];
        r := Pass;
      } else {
        r := Fail(c.error);
      }
    }

    /** `execute_command`: run the command line; it fails when the tool reports failure. */
    method ExecuteCommand(c: Command) returns (r: Outcome<ActionErrorKind>)
      modifies this
      ensures tree == old(tree) && effects == old(effects) + [Ran(c)]
      ensures r == if c in failing then Fail(CommandFailed(c)) else Pass
    {
      effects := effects + [Ran(c)];
      r := if c in failing then Fail(CommandFailed(c)) else Pass;
    }
  }
}
