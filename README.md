# Nix installer actions and the bootc planner, in Dafny

This project models three parts of the Rust Nix installer and proves properties about them.

- **`MoveDirectory`** (`move_directory.dfy`) is the action that moves a directory.
  - Before it changes anything, it checks both ends.
  - It creates the destination's parent when that parent is missing.
  - It then renames the source to the destination; revert runs the same steps in the other direction.
- **`CreateUsersAndGroupsSysUsers`** (`sysusers.dfy`) is the action that creates the Nix build group and users through systemd-sysusers.
  - It renders the sysusers configuration `/usr/lib/sysusers.d/nix.conf`.
  - It writes that file and runs `systemd-sysusers` on it.
  - Revert removes the file and runs `systemd-sysusers` again.
- **The `Bootc` planner** (`bootc.dfy`) installs Nix into a bootable container image.
  - It plans a fixed list of actions: thirteen, or fourteen for Determinate Nix.
  - It builds its settings map and the map of settings that differ from the defaults.
  - It checks the platform and classifies its own errors.

Supporting modules:

- `results.dfy`: the `Option`, `Result` and `Result<(), E>` shapes.
- `file_tree.dfy`: the file system as a map from paths to nodes.
  - A path is a sequence of components below `/`. Each component is a `Name`: non-empty, neither `.` nor `..`, and free of `/`.
  - `Valid` means that every proper prefix of a present path is a directory.
  - It defines `create_dir_all`, `rename`, `write` and `remove_file`, and proves that each keeps a valid tree valid.
- `host.dfy`: the machine the actions run on, a class holding the tree and a log of effects.
  - Its methods are the `tokio::fs` calls and `execute_command`.
  - Which commands fail is a constant of the machine, because the external tools are not modelled.
- `actions.dfy`: action state, action errors and descriptions.
- `settings.dfy`: the common settings these three parts read.
- `decimal.dfy`: decimal rendering of numbers, with its round trip through parsing.

## Model

| member | source | states |
|---|---|---|
| MoveDirectoryAction.Plan | src/action/base/move_directory.rs:22-33 | planning always succeeds, keeps `src` and `dest`, and leaves the action `Uncompleted` |
| MoveDirectoryAction.Check | src/action/base/move_directory.rs:35-53 | `check_src_and_dest` on a tree, as a function: the source's lookup error, the destination's lookup error, the existing destination and the source that is not a directory, in that order; its contract is `MoveDirectoryAction.CheckPriority` |
| MoveDirectoryAction.CheckPriority | src/action/base/move_directory.rs:35-53 | the check reports first a source that cannot be looked up (`NotADirectory` when a file lies on its way, `NotFound` otherwise), then a destination whose lookup meets a file (`GettingMetadata(dest, NotADirectory)`), then an existing destination, then a source that is not a directory; it passes exactly when the source is a directory, the destination is absent and no file lies on the destination's way |
| MoveDirectoryAction.FileOnDestinationWay | src/action/base/move_directory.rs:40-43 | moving `/a` to `/f/b` where `/f` is a file fails at the check with `GettingMetadata(/f/b, NotADirectory)` and changes nothing |
| MoveDirectoryAction.CheckSrcAndDest | src/action/base/move_directory.rs:35-53 | the method queries `metadata` and `try_exists` on the machine and returns the check of the current tree, passing exactly when the source is a directory, the destination is absent and no file lies on the destination's way |
| MoveDirectoryAction.MissingParent | src/action/base/move_directory.rs:90-95 | a parent is reported missing exactly when the destination has a parent for which `try_exists` answers `false`: it is absent and no file lies on its way |
| MoveDirectoryAction.ParentStep | src/action/base/move_directory.rs:89-101 | `try_exists` on the destination's parent, then `create_dir_all` of it when absent, with `GettingMetadata` and `CreateDirectory` errors; its contract is `MoveDirectoryAction.ParentStepSpec` |
| MoveDirectoryAction.ParentStepSpec | src/action/base/move_directory.rs:89-101 | the parent step fails exactly when the parent is absent and a file lies on its way, and then with `GettingMetadata(parent, NotADirectory)` from `try_exists`, so `create_dir_all` never fails after that lookup; on success every old entry is kept, the parent is present (a directory unless a file already stood there, which `try_exists` also answers true for), only directories at or above it are new, and `create_dir_all` is logged exactly when the parent was missing |
| MoveDirectoryAction.Prepared | src/action/base/move_directory.rs:89-101 | the tree after the parent step keeps every old entry and adds only directories on the way to the parent |
| MoveDirectoryAction.CreateMissingParent | src/action/base/move_directory.rs:89-101 | the method changes the machine exactly as the parent step says and reports its error |
| MoveDirectoryAction.RenameStep | src/action/base/move_directory.rs:103-107 | the rename succeeds exactly when `rename` does; it then moves the subtree and logs the rename after the earlier effects, and otherwise reports `Rename(from, to, kind)` and leaves the tree and log as they were |
| MoveDirectoryAction.Transfer | src/action/base/move_directory.rs:85-149 | `execute` from `from` to `to` on a tree, as a function: the check, then the parent step, then the rename, with the resulting tree and effects; `revert` is the same with the two paths swapped; its contracts are `TransferSucceedsIff`, `TransferFailure`, `TransferSuccess` and `ExecuteRevertRoundTrip` |
| MoveDirectoryAction.TransferFailure | src/action/base/move_directory.rs:85-110 | a failed move changes nothing when the check fails; otherwise it can at most have created the parent directories, and it keeps every old entry |
| MoveDirectoryAction.TransferSucceedsIff | src/action/base/move_directory.rs:85-110 | on a valid tree, execute succeeds if and only if the source is a directory, the destination is absent and not inside the source, and nothing on the way to its parent is a file |
| MoveDirectoryAction.SuccessMeansCanMove | src/action/base/move_directory.rs:85-110 | a successful move implies that the conditions for moving hold |
| MoveDirectoryAction.CanMoveSucceeds | src/action/base/move_directory.rs:85-110 | when the conditions for moving hold, the move succeeds |
| MoveDirectoryAction.PreparedKeepsValid | src/action/base/move_directory.rs:96-99 | creating the missing parents keeps a valid tree valid |
| MoveDirectoryAction.TransferKeepsValid | src/action/base/move_directory.rs:85-110 | every outcome of execute or revert keeps a valid tree valid |
| MoveDirectoryAction.TransferReady | src/action/base/move_directory.rs:85-110 | a successful move is the rename of the prepared tree, with the recorded effects in order |
| MoveDirectoryAction.SubtreeMoved | src/action/base/move_directory.rs:104-107 | after the rename, `dest/x` exists exactly when `src/x` existed, with the same node |
| MoveDirectoryAction.OutsideKept | src/action/base/move_directory.rs:104-107 | every entry outside the source is kept unchanged |
| MoveDirectoryAction.NewOnlyAbove | src/action/base/move_directory.rs:96-107 | the only new entries outside the destination are directories at or above the destination's parent |
| MoveDirectoryAction.SourceGoneParentKept | src/action/base/move_directory.rs:96-107 | the source is gone and the destination's parent is a directory |
| MoveDirectoryAction.TransferSuccess | src/action/base/move_directory.rs:85-110 | a successful execute moves the whole subtree, removes the source, keeps everything else, adds only parent directories, records create-then-rename, and leaves a valid tree |
| MoveDirectoryAction.MoveBackRestores | src/action/base/move_directory.rs:104-107 | renaming back restores the tree when nothing was under the destination before and nothing remains under the source after |
| MoveDirectoryAction.NothingLeftUnderSource | src/action/base/move_directory.rs:104-107 | when neither path is inside the other, nothing remains under the source after the rename |
| MoveDirectoryAction.ReverseChecks | src/action/base/move_directory.rs:126 | after a successful execute, the revert's check, from destination to source, passes, and the source's parent is a directory |
| MoveDirectoryAction.ReadyRenameValid | src/action/base/move_directory.rs:104-107 | after a successful run the rename is the move of the prepared tree, and it leaves a valid tree |
| MoveDirectoryAction.ReverseReachesRename | src/action/base/move_directory.rs:124-149 | after a successful execute, revert needs no parent and renames the destination back |
| MoveDirectoryAction.PassingStep | src/action/base/move_directory.rs:85-110 | when the check passes, the parent is a directory and the destination does not lie inside the source, the step is exactly the rename |
| MoveDirectoryAction.ExecuteRevertRoundTrip | src/action/base/move_directory.rs:85-149 | revert after a successful execute succeeds and restores the tree as it was after the parents were created |
| Actions.TagError | src/action/base/move_directory.rs:39 | every error an action returns carries that action's tag, and success stays success |
| MoveDirectoryAction.Execute | src/action/base/move_directory.rs:85-110 | the machine's new tree, effect log and result are those of the move from `src` to `dest` |
| MoveDirectoryAction.Revert | src/action/base/move_directory.rs:124-149 | the machine's new tree, effect log and result are those of the move from `dest` to `src` |
| MoveDirectoryAction.TracingSynopsis | src/action/base/move_directory.rs:63-69 | the synopsis names the source, then the destination |
| MoveDirectoryAction.ExecuteDescription | src/action/base/move_directory.rs:80-82 | one description, the synopsis, with no explanation |
| MoveDirectoryAction.RevertDescription | src/action/base/move_directory.rs:112-121 | one description naming the destination, then the source, with no explanation |
| SysusersAction.SysusersPathDisplay | src/action/linux/create_users_and_groups_sysusers.rs:10 | the modelled path displays as `/usr/lib/sysusers.d/nix.conf` |
| SysusersAction.Plan | src/action/linux/create_users_and_groups_sysusers.rs:24-33 | planning always succeeds, copies the five settings unchanged, and leaves the action `Uncompleted` |
| SysusersAction.LineText | src/action/linux/create_users_and_groups_sysusers.rs:96-118 | the text of each `#`, `g`, `u` and `m` line the `formatdoc!` blocks write; its shape is stated by `LineTextShape` and `UserLinesText` |
| SysusersAction.LineTextShape | src/action/linux/create_users_and_groups_sysusers.rs:96-118 | every line starts with its type letter, `#` for the comment, and ends with a newline |
| SysusersAction.UserName | src/action/linux/create_users_and_groups_sysusers.rs:104 | user `i`'s name, the prefix followed by the decimal `i`; `UserNameHasPrefix` and `UserNamesDistinct` state its properties |
| SysusersAction.UserNameHasPrefix | src/action/linux/create_users_and_groups_sysusers.rs:104 | every user name starts with the prefix and is longer than it |
| SysusersAction.Uid | src/action/linux/create_users_and_groups_sysusers.rs:103 | user `i`'s UID, `base + i - 1`; `UidsConsecutive` and `UidsDistinct` state its properties |
| SysusersAction.RenderAppend | src/action/linux/create_users_and_groups_sysusers.rs:96-119 | rendering the lines of two parts is the concatenation of their texts |
| SysusersAction.UserBlocks | src/action/linux/create_users_and_groups_sysusers.rs:102-119 | `k` user blocks are `2k` lines; block `j` is user `j+1`'s `u` line and then its `m` line |
| SysusersAction.ConfigText | src/action/linux/create_users_and_groups_sysusers.rs:96-119 | the configuration text: the rendered header and user blocks; its shape is stated by `ConfigLinesShape`, `UserLinesText` and `ConfigTextStart`, and `BuildContent` builds it |
| SysusersAction.ConfigLinesShape | src/action/linux/create_users_and_groups_sysusers.rs:96-119 | the file is a comment, the group line, then for each `i` in `1..=count` user `i`'s `u` line and `m` line, `2 + 2*count` lines in all |
| SysusersAction.UserLinesText | src/action/linux/create_users_and_groups_sysusers.rs:113-118 | user `i`'s lines read `u {prefix}{i} {uid}:{gid} "Nix build user {i}"` and `m {prefix}{i} {group}` |
| SysusersAction.ConfigTextStart | src/action/linux/create_users_and_groups_sysusers.rs:96-101 | the file starts with the comment line and `g {group} {gid}` |
| SysusersAction.HeaderRender | src/action/linux/create_users_and_groups_sysusers.rs:96-101 | the header renders to the comment line followed by the group line |
| SysusersAction.RenderTwo | src/action/linux/create_users_and_groups_sysusers.rs:113-118 | appending one user's two lines appends their two texts |
| SysusersAction.NoUsersConfigText | src/action/linux/create_users_and_groups_sysusers.rs:96-119 | with no users the file is the comment and the group line only |
| SysusersAction.UserLineAt | src/action/linux/create_users_and_groups_sysusers.rs:102-119 | any `u` line of the file sits at an even position `2i` and is user `i`'s line |
| SysusersAction.UidsDistinct | src/action/linux/create_users_and_groups_sysusers.rs:103 | no two `u` lines carry the same UID |
| SysusersAction.UserLinesInRange | src/action/linux/create_users_and_groups_sysusers.rs:102-115 | every `u` line has the group's GID and a UID in `base..base + count - 1`; which user it is comes from `SysusersAction.UserLineAt` |
| SysusersAction.UidsConsecutive | src/action/linux/create_users_and_groups_sysusers.rs:103 | the declared UIDs are exactly `base .. base + count - 1`, and all fit in a u32 when `base + count` does |
| SysusersAction.UserLineDeclared | src/action/linux/create_users_and_groups_sysusers.rs:102-118 | user `i`'s line, and its UID, are in the file for each `i` in `1..=count` |
| SysusersAction.UserNamesDistinct | src/action/linux/create_users_and_groups_sysusers.rs:104 | different user numbers give different user names |
| SysusersAction.BuildContent | src/action/linux/create_users_and_groups_sysusers.rs:96-119 | the loop that appends each user's block builds exactly the configuration text |
| SysusersAction.SynopsisWithRange | src/action/linux/create_users_and_groups_sysusers.rs:42-59 | both synopsis texts start with `Create /usr/lib/sysusers.d/nix.conf with build `, for any reported range |
| SysusersAction.TracingSynopsis | src/action/linux/create_users_and_groups_sysusers.rs:42-59 | with no users the synopsis names the file, group and GID; otherwise it also names the prefix and reports the UID range `base + 1` to `base + count`, as the source writes it |
| SysusersAction.SynopsisRangeMismatch | src/action/linux/create_users_and_groups_sysusers.rs:53-54 | with users present, the first declared UID `base` is below the reported range, `base + count` is reported but declared by no user, so the reported range is not the set of declared UIDs |
| SysusersAction.SynopsisRangeMismatchExample | src/action/linux/create_users_and_groups_sysusers.rs:53-54 | with 32 users from base 30000, the synopsis says 30001-30032 while the file declares 30000 but not 30032 |
| SysusersAction.UidRange | src/action/linux/create_users_and_groups_sysusers.rs:103 | the declared range's first and last UID; `UidRangeIsDeclared` states that it is exactly the declared set |
| SysusersAction.UidRangeIsDeclared | src/action/linux/create_users_and_groups_sysusers.rs:103 | the corrected synopsis range contains exactly the declared UIDs |
| SysusersAction.TracingSynopsisCorrected | src/action/linux/create_users_and_groups_sysusers.rs:42-59 | with no users the synopsis names the file, group and GID; otherwise it also names the prefix and the declared UID range |
| SysusersAction.ExecuteDescription | src/action/linux/create_users_and_groups_sysusers.rs:73-84 | two descriptions: the synopsis as written, explained by the daemon needing build users, then the `systemd-sysusers` run, explained by the rest of the installation needing them |
| SysusersAction.ExecuteDescriptionCorrected | src/action/linux/create_users_and_groups_sysusers.rs:73-84 | the same descriptions with the corrected synopsis; identical when there are no users |
| SysusersAction.RevertDescription | src/action/linux/create_users_and_groups_sysusers.rs:131-142 | two descriptions: removing the file, explained by the daemon needing build users, then the `systemd-sysusers` run, which has no explanation |
| SysusersAction.RevertDescriptionCommand | src/action/linux/create_users_and_groups_sysusers.rs:136-151 | the revert description names `systemd-sysusers /usr/lib/sysusers.d/nix.conf`, the command `execute` runs, while `revert` runs `systemd-sysusers` with no argument |
| SysusersAction.Execute | src/action/linux/create_users_and_groups_sysusers.rs:87-129 | a failed write is a `Write` error that changes nothing and runs nothing; otherwise the file holds the configuration, `systemd-sysusers <path>` runs after the write, and its failure is the result |
| SysusersAction.Revert | src/action/linux/create_users_and_groups_sysusers.rs:145-154 | a failed removal is a `Remove` error that changes nothing; otherwise the file is gone, `systemd-sysusers` runs without arguments, and its failure is the result |
| SysusersAction.ExecuteRevertRoundTrip | src/action/linux/create_users_and_groups_sysusers.rs:120-149 | writing the configuration file and then removing it restores the tree, when the file was absent before |
| Decimal.NatToString | src/action/linux/create_users_and_groups_sysusers.rs:99 | numbers render as a non-empty string of digits with no leading zero |
| Decimal.ParseNatToString | src/action/linux/create_users_and_groups_sysusers.rs:115 | parsing a rendered number gives the number back |
| Decimal.NatToStringInjective | src/action/linux/create_users_and_groups_sysusers.rs:104 | different numbers render differently |
| FileTree.Parent | src/action/base/move_directory.rs:90 | the root has no parent; any other path's parent is the path less its last component |
| FileTree.Display | src/action/base/move_directory.rs:63-69 | a displayed absolute path is non-empty and starts with `/` |
| FileTree.DisplayInjective | src/action/base/move_directory.rs:63-69 | two paths with the same displayed text are the same path, so each file of the operating system has exactly one key in a tree |
| FileTree.Lookup | src/action/base/move_directory.rs:36-39 | `metadata` succeeds exactly on a present path, with its node; an absent path fails with `NotADirectory` exactly when a file lies on its way, and with `NotFound` otherwise |
| FileTree.Exists | src/action/base/move_directory.rs:40-43 | `try_exists` is `true` exactly on a present path, `false` exactly on an absent path with no file on its way, and fails exactly when the lookup fails with `NotADirectory` |
| FileTree.ParentPresentNoFileAbove | src/action/base/move_directory.rs:126 | in a valid tree, no file lies on the way to a path whose parent is a directory |
| FileTree.CreateDirAll | src/action/base/move_directory.rs:96-99 | `create_dir_all` succeeds exactly when no prefix of the path is a file; it fails with `NotADirectory` exactly when a file lies above the path and with `AlreadyExists` exactly when the path itself is a file; on success it makes every prefix a directory, keeps every old entry, and adds only prefixes |
| FileTree.CreateDirAllKeepsValid | src/action/base/move_directory.rs:96-99 | `create_dir_all` keeps a valid tree valid |
| FileTree.RenamePath | src/action/base/move_directory.rs:104-107 | `rename` succeeds exactly when the source exists, the destination is absent and not inside the source, no file lies on the destination's way, and its parent is a directory; it fails with `NotADirectory` exactly when the lookup of the missing source, or of the destination once the earlier tests pass, meets a file, and with `NotFound` exactly when a path is missing with no file on its way; the new tree is the rename |
| FileTree.RenameKeepsValid | src/action/base/move_directory.rs:104-107 | `rename` keeps a valid tree valid |
| FileTree.WriteFile | src/action/linux/create_users_and_groups_sysusers.rs:120-123 | `write` succeeds exactly when no file lies on the way, the parent is a directory and the path is not a directory; it fails with `NotADirectory` exactly when a file lies above the path, with `NotFound` exactly when the parent is otherwise missing, and with `IsADirectory` exactly when the path is the root or a directory; the path then holds the content |
| SysusersAction.FileOnConfigurationWay | src/action/linux/create_users_and_groups_sysusers.rs:120-123 | with a file at `/usr`, writing and removing the configuration both fail with `NotADirectory` |
| FileTree.WriteKeepsValid | src/action/linux/create_users_and_groups_sysusers.rs:120-123 | `write` keeps a valid tree valid |
| FileTree.RemoveFile | src/action/linux/create_users_and_groups_sysusers.rs:146-149 | `remove_file` succeeds exactly when the path is a file, and then removes only that entry; it fails with `IsADirectory` exactly on a directory, with `NotADirectory` exactly when the path is absent and a file lies above it, and with `NotFound` otherwise |
| FileTree.RemoveKeepsValid | src/action/linux/create_users_and_groups_sysusers.rs:146-149 | `remove_file` keeps a valid tree valid |
| Host.Machine.Metadata | src/action/base/move_directory.rs:36-39 | `metadata` returns the lookup of the path in the current tree, `FileTree.Lookup` |
| Host.Machine.TryExists | src/action/base/move_directory.rs:40-43 | `try_exists` returns the existence query on the current tree, `FileTree.Exists`, including its `NotADirectory` failure |
| Host.Machine.CreateDirAll | src/action/base/move_directory.rs:96-99 | `create_dir_all` changes the tree to, and returns the outcome of, `FileTree.CreateDirAll`, logs the call only on success, leaves the tree alone on failure, and keeps a valid tree valid |
| Host.Machine.Rename | src/action/base/move_directory.rs:104-107 | `rename` changes the tree to, and returns the outcome of, `FileTree.RenamePath`, logs the call only on success, leaves the tree alone on failure, and keeps a valid tree valid |
| Host.Machine.Write | src/action/linux/create_users_and_groups_sysusers.rs:120-123 | `write` changes the tree to, and returns the outcome of, `FileTree.WriteFile`, logs the call only on success, leaves the tree alone on failure, and keeps a valid tree valid |
| Host.Machine.RemoveFile | src/action/linux/create_users_and_groups_sysusers.rs:146-149 | `remove_file` changes the tree to, and returns the outcome of, `FileTree.RemoveFile`, logs the call only on success, leaves the tree alone on failure, and keeps a valid tree valid |
| Host.Machine.ExecuteCommand | src/action/linux/create_users_and_groups_sysusers.rs:125-127 | running a command logs it, leaves the tree alone, and fails when the command fails |
| BootcPlanner.OverlaySubdir | src/planner/bootc.rs:46-56 | `work_dir` and `upper_dir` (`BootcPlanner.WorkDir` and `BootcPlanner.UpperDir`, which call it with `work` and `upper`) give the named child directly inside the overlay |
| BootcPlanner.SystemdUnitPath | src/planner/bootc.rs:58-62 | a unit's path is the unit name directly inside the systemd unit directory |
| BootcPlanner.OverlayDirsDisjoint | src/planner/bootc.rs:46-56 | the work and upper directories are different, and neither is inside the other |
| BootcPlanner.Default | src/planner/bootc.rs:68-75 | the defaults are `/usr/lib/nix-install`, `/var/lib/nix-overlay` and `/etc/systemd/system`, with the default common settings, whose failure is passed on |
| BootcPlanner.Steps | src/planner/bootc.rs:77-306 | the steps `plan` asks for, in order, with their arguments; stated by `StepsCount`, `StepsAt`, `StepsEnd` and `SelinuxPolicyChoice` |
| BootcPlanner.SelinuxPolicyFor | src/planner/bootc.rs:247-251 | the Determinate policy is chosen exactly for Determinate Nix |
| BootcPlanner.StepsCount | src/planner/bootc.rs:77-308 | the plan has 13 steps, or 14 for Determinate Nix; the only `ProvisionDeterminateNixd` is at position 5, right before `ProvisionNix`, and removing it leaves the 13 |
| BootcPlanner.StepsAt | src/planner/bootc.rs:96-306 | each step of the plan, with its arguments, by position |
| BootcPlanner.StepsEnd | src/planner/bootc.rs:258-306 | the plan ends by configuring the init service without starting it, moving `/nix` to the read-only image, re-creating `/nix` and removing the scratch directory; that move is the only one |
| BootcPlanner.SelinuxPolicyChoice | src/planner/bootc.rs:244-256 | the SELinux step installs the Determinate policy exactly when the distribution is Determinate Nix |
| BootcPlanner.PlanOne | src/planner/bootc.rs:96-107 | one step's own `plan`: `MoveDirectory::plan` for the move, the step's planner otherwise; stated by `PlanOneSpec` |
| BootcPlanner.PlanFrom | src/planner/bootc.rs:77-308 | planning the steps in order, stopping at the first failure; stated by `PlanFromSuccess` and `PlanFromFirstFailure` |
| BootcPlanner.PlanOneSpec | src/planner/bootc.rs:96-107 | a planned step keeps its arguments; the move is always planned `Uncompleted`; any other step fails exactly when its planner does, with that planner's error |
| BootcPlanner.PlanFromSuccess | src/planner/bootc.rs:77-309 | when every step's planner succeeds, the plan is every step with its planned state, in order |
| BootcPlanner.PlanFromFirstFailure | src/planner/bootc.rs:96-306 | when step `j`'s planner is the first to fail, planning fails with that error wrapped as `PlannerError::Action` |
| BootcPlanner.MoveStepNeverFails | src/planner/bootc.rs:266-273 | the move of `/nix` never makes planning fail |
| BootcPlanner.Push | src/planner/bootc.rs:96-108 | one push either fails the whole planning with this step's error or plans one more step |
| BootcPlanner.Plan | src/planner/bootc.rs:77-309 | `plan` returns exactly the planning of the step list: the first failure, or every planned step in order |
| BootcPlanner.PathValue | src/planner/bootc.rs:323-328 | a path's JSON value is a string that starts with `/` |
| BootcPlanner.BootcSettings | src/planner/bootc.rs:311-332 | the settings map of `settings`, or the common settings' failure; stated by `BootcSettingsSpec` |
| BootcPlanner.BootcSettingsSpec | src/planner/bootc.rs:311-332 | the settings hold every common key plus `readonly_image`, `overlay` and `systemd_unit_dir`; those three override common entries of the same name; the settings fail only when the common settings do |
| BootcPlanner.SettingsOf | src/planner/bootc.rs:311-332 | extending the common map and inserting the three directories builds exactly those settings |
| BootcPlanner.Diff | src/planner/bootc.rs:340-346 | the difference holds exactly the configured keys that are missing from the defaults or have a different value there, with their configured values |
| BootcPlanner.DiffRestores | src/planner/bootc.rs:334-348 | laying the difference over the defaults gives back every configured value, and the default configuration has an empty difference |
| BootcPlanner.KeepChanged | src/planner/bootc.rs:340-346 | the loop over the configured entries builds exactly the difference |
| BootcPlanner.ConfiguredSettings | src/planner/bootc.rs:334-348 | `configured_settings` is the difference between this planner's settings and the default planner's, and passes on a failure of the defaults or of either settings map |
| BootcPlanner.PlatformCheck | src/planner/bootc.rs:350-363 | the platform check passes exactly on Linux; otherwise it reports `IncompatibleOperatingSystem` naming `bootc` and the host |
| BootcPlanner.Message | src/planner/bootc.rs:393-402 | the `#[error]` text of each bootc error |
| BootcPlanner.MessagesDistinct | src/planner/bootc.rs:393-402 | every bootc error has a non-empty message, and different errors have different messages |
| BootcPlanner.Expected | src/planner/bootc.rs:404-412 | every bootc error is classified as expected and reported as itself |
| BootcPlanner.ToPlannerError | src/planner/bootc.rs:414-418 | a bootc error becomes a custom planner error carrying it |

## Left out

- I/O is modelled as an in-memory tree on the machine class.
  - The async runtime, tracing spans and `typetag`/serde names are left out.
  - I/O error payloads are reduced to an error kind.
- The two text templates of the bootc plan are opaque `FileText` values that record the paths they mention: the tmpfiles configuration and the mount unit.
  - The exact `formatdoc!`/`indoc!` text is left out, as is the ensure-symlinked-units service text.
- The sub-action planners the bootc plan calls are the parameter `subPlan`, which may fail.
  - These are `CreateFile`, `CreateDirectory`, `ProvisionDeterminateNixd`, `ProvisionNix`, `CreateUsersAndGroups`, `ConfigureNix`, `ProvisionSelinux`, `ConfigureUpstreamInitService` and `RemoveDirectory`.
  - `MoveDirectory::plan` is modelled.
  - `ConfigureNix`'s `ShellProfileLocations::default()` argument is a constant that is not modelled.
- `SCRATCH_DIR` is defined outside these files, so it is a parameter of the plan.
- `pre_install_check` and `pre_uninstall_check` are left out. They only call host checks outside these files: `check_not_nixos`, `check_nix_not_already_installed` and `check_not_wsl1`.
- `From<Bootc> for BuiltinPlanner` is left out. It only wraps the planner in an enum.
- Host detection (`OperatingSystem::host()`) is the parameter `host` of `PlatformCheck`.
- `CommonSettings::settings()` is defined outside these files.
  - It is a field of `CommonSettings` holding either a map or an error.
  - `serde_json::to_value` of a path is modelled as never failing, and gives the path's display string.
- The file tree has no permissions, mount points, symbolic links, `.` or `..` components, and no I/O failures of its own. A lookup fails only with `NotFound`, or with `NotADirectory` when a file lies on the path's way, and `FileTree.Lookup` and `FileTree.Exists` model both. Lookup failures for any other reason cannot happen in the model: those of `metadata(src)` (`src/action/base/move_directory.rs:36-39`), `try_exists(dest)` (40-43) and `try_exists(parent)` (91-94 and 130-133). Nor can `rename` fail for reasons the tree cannot express, such as a cross-device move or a denied permission (104-107). `write` and `remove_file` in the sysusers action, and `rename` and `create_dir_all`, fail only for the tree-shape reasons that `FileTree.WriteFile`, `FileTree.RemoveFile`, `FileTree.RenamePath` and `FileTree.CreateDirAll` state. `write`, `remove_file` and `create_dir_all` report the error kind the operating system gives for that shape. `rename` does so when only one thing is wrong and the source is not the root; when several are, its kind can differ (see the `FileTree.RenamePath` line below).
- `FileTree.Display` and paths: a path is a sequence of `Name` components below `/`, and a `Name` is non-empty, is neither `.` nor `..`, and holds no `/`. So relative paths, empty components, repeated separators and trailing separators cannot be written, and `FileTree.DisplayInjective` proves that two different paths never display alike. The model therefore assumes that every path the actions and the planner receive is in this normal form. In the source, a path such as `/b/` or `/usr/lib/nix-install/` is accepted as it is. `/b/` as a `MoveDirectory` destination has the parent `/`, and a read-only image set to `/usr/lib/nix-install/` differs, as a settings string, from the default `/usr/lib/nix-install` and counts as configured. The model cannot state those inputs.
- `FileTree.RenamePath` models `rename` onto an absent destination only. Renaming onto an existing empty directory is not modelled; both actions check that the destination is absent first. It also tests the source before the destination: a missing source, an existing destination and a destination inside the source are reported before the destination's way is resolved. Linux resolves both parents first, so when the source and the destination's way both fail, or when the destination lies inside the source below a missing directory, the reported kind can differ (for example `NotFound` where Linux gives ENOTDIR for a missing `/a` moved to `/f/b` with `/f` a file). Neither action reaches those cases, because `check_src_and_dest` and the parent step run first. A rename of the root `/` itself is a destination inside the source and is reported as `InvalidInput`, while Linux refuses it with EBUSY (Rust's `ResourceBusy`); a `MoveDirectory` whose source is `/` does reach this case.
- `BootcPlanner.SystemdUnitPath` assumes the unit name is one relative path component. Both names used are.
- `SysusersAction.BuildContent`, `SysusersAction.Execute`, `SysusersAction.TracingSynopsis`, `SysusersAction.ExecuteDescription` and `SysusersAction.ExecuteDescriptionCorrected` require `base + count` to fit in a u32. The source computes `base + i - 1` and `base + count` in u32 arithmetic and would overflow beyond that; wrap-around and overflow panics are not modelled.
- `MoveDirectoryAction.Plan` follows the code: it always succeeds as `Uncompleted`. The source's own tests at `src/action/base/move_directory.rs:204-232` expect `Completed` when the destination exists, and an error when the source is missing. The code checks neither at planning time, so the model does not either.
- `SysusersAction.Plan` assumes that the `.into()` conversion to a stateful action gives the `Uncompleted` state; that conversion is defined outside these files.
- `BootcPlanner.Message` is the `Display` text of each bootc error and has no `ensures` of its own; `BootcPlanner.MessagesDistinct` states its properties.
- `SysusersAction.RevertDescription` keeps the text as written, naming `systemd-sysusers /usr/lib/sysusers.d/nix.conf`, while `SysusersAction.Revert` runs `systemd-sysusers` with no argument as the source does (`src/action/linux/create_users_and_groups_sysusers.rs:138` and 150). `SysusersAction.RevertDescriptionCommand` states that the two differ.
- Command execution is decided by the machine's set of failing commands; the output and exit status of `systemd-sysusers` are not modelled. A command changes no entry of the tree: `Host.Machine.ExecuteCommand` only logs it, so what `systemd-sysusers` does to the users and groups is outside the model.

## Findings

| source | as written | input that shows it | evidently intended | confidence | as-written member | corrected member |
|---|---|---|---|---|---|---|
| src/action/linux/create_users_and_groups_sysusers.rs:53-54 | the synopsis reports the UIDs as `base + 1` to `base + count`, while line 103 gives user `i` the UID `base + i - 1`, so the file declares `base` to `base + count - 1` | 32 users from base 30000: the synopsis says 30001-30032, the file declares 30000 to 30031 | the synopsis reports the UIDs the file declares; changing line 103 so that user `i` gets `base + i` would also reconcile the two | low; not executed | SysusersAction.TracingSynopsis, SysusersAction.SynopsisRangeMismatchExample | SysusersAction.TracingSynopsisCorrected, SysusersAction.UidRangeIsDeclared, SysusersAction.ExecuteDescriptionCorrected |
