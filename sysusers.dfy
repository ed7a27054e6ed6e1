/**
 * The `CreateUsersAndGroupsSysUsers` action: it writes a systemd-sysusers
 * configuration declaring the Nix build group and the build users, then runs
 * `systemd-sysusers` on it; on revert it removes the file and runs the tool
 * again.
 *
 * The configuration is specified as a list of `Line`s (`ConfigLines`) and
 * their text (`ConfigText`); `BuildContent` is the loop that appends the text
 * piece by piece.
 */
module SysusersAction {
  import opened Results
  import opened FileTree
  import opened Actions
  import opened Host
  import opened Settings
  import opened Decimal

  const Tag := "create_users_and_group_sysusers"

  /** `SYSUSERS_PATH`, as components and as text. */
  const SysusersPath: Path := ["usr", "lib", "sysusers.d", "nix.conf"]
  const SysusersPathText := "/usr/lib/sysusers.d/nix.conf"

  lemma SysusersPathDisplay()
    ensures Display(SysusersPath) == SysusersPathText
  {
    assert SysusersPath[1..] == ["lib", "sysusers.d", "nix.conf"];
    assert SysusersPath[1..][1..] == ["sysusers.d", "nix.conf"];
    assert SysusersPath[1..][1..][1..] == ["nix.conf"];
    assert SysusersPath[1..][1..][1..][1..] == [];
  }

  datatype CreateUsersAndGroupsSysUsers = CreateUsersAndGroupsSysUsers(
    groupName: string,
    groupId: U32,
    userCount: U32,
    userPrefix: string,
    userIdBase: U32)

  /** `plan`: copy the five build-user settings; it never fails, and the action starts `Uncompleted`. */
  function Plan(settings: CommonSettings): (r: Result<StatefulAction<CreateUsersAndGroupsSysUsers>, ActionError>)
    ensures r.Success? && r.value.state == Uncompleted
    ensures r.value.action.groupName == settings.nixBuildGroupName
    ensures r.value.action.groupId == settings.nixBuildGroupId
    ensures r.value.action.userCount == settings.nixBuildUserCount
    ensures r.value.action.userPrefix == settings.nixBuildUserPrefix
    ensures r.value.action.userIdBase == settings.nixBuildUserIdBase
  {
    Success(StatefulAction(
      CreateUsersAndGroupsSysUsers(
        settings.nixBuildGroupName, settings.nixBuildGroupId, settings.nixBuildUserCount,
        settings.nixBuildUserPrefix, settings.nixBuildUserIdBase),
      Uncompleted))
  }

  /**
   * The `u32` arithmetic of the user loop and of the synopsis stays in
   * range: `base + i` for every user `i`, and `base + count`.
   */
  predicate InRange(a: CreateUsersAndGroupsSysUsers) {
    a.userIdBase + a.userCount <= U32_MAX
  }

  // ---------------------------------------------------------------- the configuration

  const HeaderComment := "Nix build group and users."
  const GecosPrefix := "Nix build user "

  /** One line of a sysusers.d file. */
  datatype Line =
    | Comment(text: string)
    | Group(name: string, gid: nat)
    | User(name: string, uid: nat, gid: nat, gecos: string)
    | Member(user: string, group: string)

  /** A line as the file holds it, with its newline. */
  function LineText(l: Line): string {
    match l
    case Comment(text) => "# " + text + "\n"
    case Group(name, gid) => "g " + name + " " + NatToString(gid) + "\n"
    case User(name, uid, gid, gecos) => "u " + name + " " + NatToString(uid) + ":" + NatToString(gid) + " \"" + gecos + "\"\n"
    case Member(user, group) => "m " + user + " " + group + "\n"
  }

  /** Every line starts with its type letter (`#` for a comment) and ends with its newline. */
  lemma LineTextShape(l: Line)
    ensures var r := LineText(l);
      && |r| >= 2 && r[|r| - 1] == '\n'
      && r[0] == (match l case Comment(_) => '#' case Group(_, _) => 'g' case User(_, _, _, _) => 'u' case Member(_, _) => 'm')
  {
  }

  /** The text of a list of lines. */
  function Render(ls: seq<Line>): string {
    if |ls| == 0 then "" else Render(ls[..|ls| - 1]) + LineText(ls[|ls| - 1])
  }

  lemma {:induction false} RenderAppend(xs: seq<Line>, ys: seq<Line>)
    ensures Render(xs + ys) == Render(xs) + Render(ys)
    decreases |ys|
  {
    if ys != [] {
      var ys' := ys[..|ys| - 1];
      assert (xs + ys)[..|xs + ys| - 1] == xs + ys';
      RenderAppend(xs, ys');
    } else {
      assert xs + ys == xs;
    }
  }

  /** Build user `i` (counting from 1): `{prefix}{i}`. */
  function UserName(a: CreateUsersAndGroupsSysUsers, i: nat): string {
    a.userPrefix + NatToString(i)
  }

  /** Every build user's name starts with the prefix and goes on with the user's number. */
  lemma UserNameHasPrefix(a: CreateUsersAndGroupsSysUsers, i: nat)
    ensures |UserName(a, i)| > |a.userPrefix| && UserName(a, i)[..|a.userPrefix|] == a.userPrefix
  {
  }

  /** The UID of build user `i >= 1`. */
  function Uid(a: CreateUsersAndGroupsSysUsers, i: nat): nat
    requires i >= 1
  {
    a.userIdBase + i - 1
  }

  function UserLine(a: CreateUsersAndGroupsSysUsers, i: nat): Line
    requires i >= 1
  {
    User(UserName(a, i), Uid(a, i), a.groupId, GecosPrefix + NatToString(i))
  }

  function MemberLine(a: CreateUsersAndGroupsSysUsers, i: nat): Line {
    Member(UserName(a, i), a.groupName)
  }

  /** The comment and the group line every configuration starts with. */
  function Header(a: CreateUsersAndGroupsSysUsers): seq<Line> {
    [Comment(HeaderComment), Group(a.groupName, a.groupId)]
  }

  /** The lines for users `1..k`: user `i`'s line followed by its membership line, in order. */
  function UserBlocks(a: CreateUsersAndGroupsSysUsers, k: nat): (r: seq<Line>)
    ensures |r| == 2 * k
    ensures forall j | 0 <= j < k :: r[2 * j] == UserLine(a, j + 1) && r[2 * j + 1] == MemberLine(a, j + 1)
  {
    if k == 0 then [] else UserBlocks(a, k - 1) + [UserLine(a, k), MemberLine(a, k)]
  }

  function ConfigLines(a: CreateUsersAndGroupsSysUsers): seq<Line> {
    Header(a) + UserBlocks(a, a.userCount)
  }

  /** The content `execute` writes. */
  function ConfigText(a: CreateUsersAndGroupsSysUsers): string {
    Render(ConfigLines(a))
  }

  /**
   * The file has the comment, the group line, then for each user `i` from 1
   * to the count, in order, user `i`'s line and the line adding that user to
   * the group; nothing else.
   */
  lemma ConfigLinesShape(a: CreateUsersAndGroupsSysUsers)
    ensures |ConfigLines(a)| == 2 + 2 * a.userCount
    ensures ConfigLines(a)[0] == Comment(HeaderComment)
    ensures ConfigLines(a)[1] == Group(a.groupName, a.groupId)
    ensures forall i | 1 <= i <= a.userCount ::
      ConfigLines(a)[2 * i] == UserLine(a, i) && ConfigLines(a)[2 * i + 1] == MemberLine(a, i)
  {
    var ub := UserBlocks(a, a.userCount);
    forall i | 1 <= i <= a.userCount
      ensures ConfigLines(a)[2 * i] == UserLine(a, i) && ConfigLines(a)[2 * i + 1] == MemberLine(a, i)
    {
      assert ConfigLines(a)[2 * i] == ub[2 * (i - 1)];
      assert ConfigLines(a)[2 * i + 1] == ub[2 * (i - 1) + 1];
    }
  }

  /** User `i`'s line reads `u {prefix}{i} {base + i - 1}:{gid} "Nix build user {i}"`, its membership line `m {prefix}{i} {group}`. */
  lemma UserLinesText(a: CreateUsersAndGroupsSysUsers, i: nat)
    requires i >= 1
    ensures LineText(UserLine(a, i)) ==
      "u " + (a.userPrefix + NatToString(i)) + " " + NatToString(a.userIdBase + i - 1) + ":" + NatToString(a.groupId)
      + " \"" + (GecosPrefix + NatToString(i)) + "\"\n"
    ensures LineText(MemberLine(a, i)) == "m " + (a.userPrefix + NatToString(i)) + " " + a.groupName + "\n"
  {
  }

  /** The text is the comment line `# Nix build group and users.`, the line `g {name} {gid}`, then the users' lines. */
  lemma ConfigTextStart(a: CreateUsersAndGroupsSysUsers)
    ensures LineText(Comment(HeaderComment)) == "# " + HeaderComment + "\n"
    ensures LineText(Group(a.groupName, a.groupId)) == "g " + a.groupName + " " + NatToString(a.groupId) + "\n"
    ensures ConfigText(a) ==
      LineText(Comment(HeaderComment)) + LineText(Group(a.groupName, a.groupId)) + Render(UserBlocks(a, a.userCount))
  {
    RenderAppend(Header(a), UserBlocks(a, a.userCount));
    HeaderRender(a);
  }

  lemma HeaderRender(a: CreateUsersAndGroupsSysUsers)
    ensures Render(Header(a)) == LineText(Comment(HeaderComment)) + LineText(Group(a.groupName, a.groupId))
  {
    RenderTwo([], Comment(HeaderComment), Group(a.groupName, a.groupId));
    assert [] + [Comment(HeaderComment), Group(a.groupName, a.groupId)] == Header(a);
    assert Render([]) + LineText(Comment(HeaderComment)) == LineText(Comment(HeaderComment));
  }

  lemma RenderTwo(xs: seq<Line>, x: Line, y: Line)
    ensures Render(xs + [x, y]) == Render(xs) + LineText(x) + LineText(y)
  {
    assert (xs + [x, y])[..|xs| + 1] == xs + [x];
    assert (xs + [x])[..|xs|] == xs;
  }

  /** With no build users the file is the header comment and the group line alone. */
  lemma NoUsersConfigText(a: CreateUsersAndGroupsSysUsers)
    requires a.userCount == 0
    ensures ConfigText(a) == LineText(Comment(HeaderComment)) + LineText(Group(a.groupName, a.groupId))
  {
    assert ConfigLines(a) == Header(a);
    HeaderRender(a);
  }

  /** The UIDs the configuration declares. */
  function Uids(a: CreateUsersAndGroupsSysUsers): set<nat> {
    set l | l in ConfigLines(a) && l.User? :: l.uid
  }

  /** The user lines are exactly the lines at the even positions after the header. */
  lemma UserLineAt(a: CreateUsersAndGroupsSysUsers, j: nat)
    requires j < |ConfigLines(a)| && ConfigLines(a)[j].User?
    ensures j >= 2 && j % 2 == 0 && ConfigLines(a)[j] == UserLine(a, j / 2)
  {
    var i := j / 2;
    var ub := UserBlocks(a, a.userCount);
    assert j == 2 * i + j % 2;
    assert j >= 2;
    assert ConfigLines(a)[j] == ub[j - 2];
    assert j - 2 == 2 * (i - 1) + j % 2;
  }

  /** Each UID in the file belongs to one user line only. */
  lemma UidsDistinct(a: CreateUsersAndGroupsSysUsers)
    ensures forall j, k | 0 <= j < k < |ConfigLines(a)| && ConfigLines(a)[j].User? && ConfigLines(a)[k].User? ::
      ConfigLines(a)[j].uid != ConfigLines(a)[k].uid
  {
    var ls := ConfigLines(a);
    forall j, k | 0 <= j < k < |ls| && ls[j].User? && ls[k].User? ensures ls[j].uid != ls[k].uid {
      UserLineAt(a, j);
      UserLineAt(a, k);
    }
  }

  /** Every user line puts its user in the build group and gives it a UID from `base` to `base + count - 1`. */
  lemma UserLinesInRange(a: CreateUsersAndGroupsSysUsers)
    ensures forall l | l in ConfigLines(a) && l.User? ::
      l.gid == a.groupId && a.userIdBase <= l.uid < a.userIdBase + a.userCount
  {
    var ls := ConfigLines(a);
    forall l | l in ls && l.User? ensures l.gid == a.groupId && a.userIdBase <= l.uid < a.userIdBase + a.userCount {
      var j :| 0 <= j < |ls| && ls[j] == l;
      UserLineAt(a, j);
    }
  }

  /**
   * The users get the consecutive UIDs `base, ..., base + count - 1`, each
   * once, and all of them fit in `u32` when the loop's arithmetic does.
   */
  lemma UidsConsecutive(a: CreateUsersAndGroupsSysUsers)
    ensures forall x: nat :: x in Uids(a) <==> a.userIdBase <= x < a.userIdBase + a.userCount
    ensures InRange(a) ==> forall x | x in Uids(a) :: x <= U32_MAX
  {
    UserLinesInRange(a);
    forall x: nat | a.userIdBase <= x < a.userIdBase + a.userCount ensures x in Uids(a) {
      UserLineDeclared(a, x - a.userIdBase + 1);
    }
  }

  /** User `i`'s line is in the file. */
  lemma UserLineDeclared(a: CreateUsersAndGroupsSysUsers, i: nat)
    requires 1 <= i <= a.userCount
    ensures UserLine(a, i) in ConfigLines(a) && Uid(a, i) in Uids(a)
  {
    var ub := UserBlocks(a, a.userCount);
    assert ConfigLines(a)[2 * i] == ub[2 * (i - 1)];
  }

  /** Different build users get different names. */
  lemma UserNamesDistinct(a: CreateUsersAndGroupsSysUsers, i: nat, j: nat)
    ensures UserName(a, i) == UserName(a, j) ==> i == j
  {
    if UserName(a, i) == UserName(a, j) {
      assert NatToString(i) == UserName(a, i)[|a.userPrefix|..];
      assert NatToString(j) == UserName(a, j)[|a.userPrefix|..];
      NatToStringInjective(i, j);
    }
  }

  /** `execute`'s content loop: the header, then for `i` in `1..=count` the user and membership lines. */
  method BuildContent(a: CreateUsersAndGroupsSysUsers) returns (content: string)
    requires InRange(a)
    ensures content == ConfigText(a)
  {
    content := LineText(Comment(HeaderComment)) + LineText(Group(a.groupName, a.groupId));
    HeaderRender(a);
    for i := 1 to a.userCount + 1
      invariant content == Render(Header(a) + UserBlocks(a, i - 1))
    {
      var uid := a.userIdBase + i - 1;
      var userName := a.userPrefix + NatToString(i);
      UserLineIs(a, i, userName, uid);
      content := content + LineText(User(userName, uid, a.groupId, GecosPrefix + NatToString(i)))
        + LineText(Member(userName, a.groupName));
      AppendUserBlock(a, i);
    }
  }

  /** The lines the loop writes for user `i` are user `i`'s lines. */
  lemma UserLineIs(a: CreateUsersAndGroupsSysUsers, i: nat, userName: string, uid: int)
    requires i >= 1 && userName == a.userPrefix + NatToString(i) && uid == a.userIdBase + i - 1
    ensures User(userName, uid, a.groupId, GecosPrefix + NatToString(i)) == UserLine(a, i)
    ensures Member(userName, a.groupName) == MemberLine(a, i)
  {
  }

  /** One turn of the content loop appends user `i`'s two lines. */
  lemma AppendUserBlock(a: CreateUsersAndGroupsSysUsers, i: nat)
    requires i >= 1
    ensures Render(Header(a) + UserBlocks(a, i)) ==
      Render(Header(a) + UserBlocks(a, i - 1)) + LineText(UserLine(a, i)) + LineText(MemberLine(a, i))
  {
    assert Header(a) + UserBlocks(a, i) == (Header(a) + UserBlocks(a, i - 1)) + [UserLine(a, i), MemberLine(a, i)];
    RenderTwo(Header(a) + UserBlocks(a, i - 1), UserLine(a, i), MemberLine(a, i));
  }

  // ---------------------------------------------------------------- synopsis and descriptions

  const SynopsisStart := "Create " + SysusersPathText + " with build "

  /** The synopsis text, for a reported UID range `lo-hi`. */
  function SynopsisWithRange(a: CreateUsersAndGroupsSysUsers, lo: nat, hi: nat): (r: string)
    ensures |r| > |SynopsisStart| && r[..|SynopsisStart|] == SynopsisStart
  {
    if a.userCount == 0 then
      "Create " + SysusersPathText + " with build group " + a.groupName + " (GID " + NatToString(a.groupId) + ")"
    else
      "Create " + SysusersPathText + " with build users " + a.userPrefix + "* (UID " + NatToString(lo) + "-"
        + NatToString(hi) + ") and group " + a.groupName + " (GID " + NatToString(a.groupId) + ")"
  }

  /**
   * `tracing_synopsis` as the source writes it: the group alone when there
   * are no users, otherwise the range `base + 1 .. base + count`.
   */
  function TracingSynopsis(a: CreateUsersAndGroupsSysUsers): (r: string)
    requires InRange(a)
    ensures a.userCount == 0 ==> r == "Create " + SysusersPathText + " with build group " + a.groupName + " (GID " + NatToString(a.groupId) + ")"
    ensures a.userCount > 0 ==> r == SynopsisWithRange(a, a.userIdBase + 1, a.userIdBase + a.userCount)
  {
    SynopsisWithRange(a, a.userIdBase + 1, a.userIdBase + a.userCount)
  }

  /**
   * The reported range is never the range of declared UIDs: the first
   * declared UID `base` is below it and `base + count`, its upper end, is
   * declared by no user.
   */
  lemma SynopsisRangeMismatch(a: CreateUsersAndGroupsSysUsers)
    requires a.userCount > 0
    ensures a.userIdBase in Uids(a)
    ensures a.userIdBase + a.userCount !in Uids(a)
    ensures !(forall x: nat :: x in Uids(a) <==> a.userIdBase + 1 <= x <= a.userIdBase + a.userCount)
  {
    UidsConsecutive(a);
  }

  /** 32 users from base 30000: the synopsis says 30001-30032, the file declares 30000 to 30031. */
  lemma SynopsisRangeMismatchExample()
    ensures var a := CreateUsersAndGroupsSysUsers("nixbld", 30000, 32, "nixbld", 30000);
      && 30000 in Uids(a) && 30032 !in Uids(a)
      && TracingSynopsis(a) == SynopsisWithRange(a, 30001, 30032)
  {
    SynopsisRangeMismatch(CreateUsersAndGroupsSysUsers("nixbld", 30000, 32, "nixbld", 30000));
  }

  /** The first and last declared UID, which the synopsis is meant to report. */
  function UidRange(a: CreateUsersAndGroupsSysUsers): (r: (nat, nat))
    requires a.userCount > 0
    ensures r.0 <= r.1
  {
    (a.userIdBase, a.userIdBase + a.userCount - 1)
  }

  /** The corrected range is exactly the set of declared UIDs. */
  lemma UidRangeIsDeclared(a: CreateUsersAndGroupsSysUsers)
    requires a.userCount > 0
    ensures forall x: nat :: x in Uids(a) <==> UidRange(a).0 <= x <= UidRange(a).1
  {
    UidsConsecutive(a);
  }

  /** `tracing_synopsis` corrected to report the UIDs the file declares. */
  function TracingSynopsisCorrected(a: CreateUsersAndGroupsSysUsers): (r: string)
    ensures a.userCount == 0 ==> r == "Create " + SysusersPathText + " with build group " + a.groupName + " (GID " + NatToString(a.groupId) + ")"
    ensures a.userCount > 0 ==> r == SynopsisWithRange(a, UidRange(a).0, UidRange(a).1)
  {
    if a.userCount == 0 then SynopsisWithRange(a, 0, 0) else SynopsisWithRange(a, UidRange(a).0, UidRange(a).1)
  }

  const WhyBuildUsers := "The Nix daemon requires system users (and a group they share) which it can act as in order to build"
  const WhyRequired := "Build users and group are required for the rest of the installation to succeed"
  const ApplyText := "Run `systemd-sysusers " + SysusersPathText + "` to create the users and group"
  const ReapplyText := "Run `systemd-sysusers " + SysusersPathText + "` to remove the users and group"
  const RemoveText := "Remove " + SysusersPathText + " containing the build users and group"

  /** `execute_description`: the synopsis as written, then the `systemd-sysusers` run, each with its reason. */
  function ExecuteDescription(a: CreateUsersAndGroupsSysUsers): (r: seq<ActionDescription>)
    requires InRange(a)
    ensures |r| == 2 && r[0].description == TracingSynopsis(a)
    ensures r[0].explanation == [WhyBuildUsers]
    ensures r[1].description == ApplyText && r[1].explanation == [WhyRequired]
  {
    [ ActionDescription(TracingSynopsis(a),
        [WhyBuildUsers]),
      ActionDescription(ApplyText,
        [WhyRequired]) ]
  }

  /** `execute_description` with the corrected synopsis; it differs from the source's only in the headline's UID range. */
  function ExecuteDescriptionCorrected(a: CreateUsersAndGroupsSysUsers): (r: seq<ActionDescription>)
    requires InRange(a)
    ensures |r| == 2 && r[0].description == TracingSynopsisCorrected(a)
    ensures r[0].explanation == ExecuteDescription(a)[0].explanation
    ensures r[1] == ExecuteDescription(a)[1]
    ensures a.userCount == 0 ==> r == ExecuteDescription(a)
  {
    [ ActionDescription(TracingSynopsisCorrected(a),
        [WhyBuildUsers]),
      ActionDescription(ApplyText,
        [WhyRequired]) ]
  }

  /** `revert_description`: the removal, then the `systemd-sysusers` run. */
  function RevertDescription(a: CreateUsersAndGroupsSysUsers): (r: seq<ActionDescription>)
    ensures |r| == 2 && r[1].explanation == []
    ensures r[0].description == RemoveText && r[0].explanation == [WhyBuildUsers]
    ensures r[1].description == ReapplyText
  {
    [ ActionDescription(RemoveText,
        [WhyBuildUsers]),
      ActionDescription(ReapplyText, []) ]
  }

  // ---------------------------------------------------------------- execute and revert

  /** The command `execute` runs: `systemd-sysusers /usr/lib/sysusers.d/nix.conf`. */
  const ApplyCommand := Command("systemd-sysusers", [SysusersPathText])

  /** The command `revert` runs: `systemd-sysusers` with no argument. */
  const ReapplyCommand := Command("systemd-sysusers", [])

  /**
   * A file where `/usr` should be a directory: both the write and the
   * removal of the configuration fail with `NotADirectory`.
   */
  lemma FileOnConfigurationWay()
    ensures var t := map[[] := Dir, ["usr"] := File("")];
      && WriteFile(t, SysusersPath, "") == Failure(NotADirectory)
      && FileTree.RemoveFile(t, SysusersPath) == Failure(NotADirectory)
  {
    assert SysusersPath[..1] == ["usr"];
    assert FileAbove(map[[] := Dir, ["usr"] := File("")], SysusersPath);
  }

  /**
   * The revert description names the command `execute` runs, with the
   * configuration's path, while `revert` runs `systemd-sysusers` with no
   * argument, the file being gone by then.
   */
  lemma RevertDescriptionCommand(a: CreateUsersAndGroupsSysUsers)
    ensures RevertDescription(a)[1].description == ReapplyText
    ensures ReapplyText == "Run `systemd-sysusers " + SysusersPathText + "` to remove the users and group"
    ensures ApplyCommand.args == [SysusersPathText]
    ensures ReapplyCommand.program == ApplyCommand.program && ReapplyCommand.args == [] && ReapplyCommand != ApplyCommand
  {
  }

  /**
   * `execute`: write the configuration; only when that succeeded, run
   * `systemd-sysusers` on it. A failed write is a `Write` error and runs
   * nothing.
   */
  method Execute(a: CreateUsersAndGroupsSysUsers, h: Machine) returns (r: Outcome<ActionError>)
    requires InRange(a)
    modifies h
    ensures match WriteFile(old(h.tree), SysusersPath, ConfigText(a))
      case Failure(e) =>
        r == Fail(ActionError(Tag, Write(SysusersPath, e))) && h.tree == old(h.tree) && h.effects == old(h.effects)
      case Success(u) =>
        && h.tree == u
        && h.effects == old(h.effects) + [Wrote(SysusersPath, ConfigText(a)), Ran(ApplyCommand)]
        && r == TagError(Tag, if ApplyCommand in h.failing then Fail(CommandFailed(ApplyCommand)) else Pass)
  {
    var content := BuildContent(a);
    var written := h.Write(SysusersPath, content);
    if written.Fail? {
      return Fail(ActionError(Tag, Write(SysusersPath, written.error)));
    }
    var ran := h.ExecuteCommand(ApplyCommand);
    if ran.Fail? {
      return Fail(ActionError(Tag, ran.error));
    }
    return Pass;
  }

  /**
   * `revert`: remove the configuration; only when that succeeded, run
   * `systemd-sysusers` with no argument. A failed removal is a `Remove`
   * error and runs nothing.
   */
  method Revert(a: CreateUsersAndGroupsSysUsers, h: Machine) returns (r: Outcome<ActionError>)
    modifies h
    ensures match FileTree.RemoveFile(old(h.tree), SysusersPath)
      case Failure(e) =>
        r == Fail(ActionError(Tag, Remove(SysusersPath, e))) && h.tree == old(h.tree) && h.effects == old(h.effects)
      case Success(u) =>
        && h.tree == u
        && h.effects == old(h.effects) + [RemovedFile(SysusersPath), Ran(ReapplyCommand)]
        && r == TagError(Tag, if ReapplyCommand in h.failing then Fail(CommandFailed(ReapplyCommand)) else Pass)
  {
    var removed := h.RemoveFile(SysusersPath);
    if removed.Fail? {
      return Fail(ActionError(Tag, Remove(SysusersPath, removed.error)));
    }
    var ran := h.ExecuteCommand(ReapplyCommand);
    if ran.Fail? {
      return Fail(ActionError(Tag, ran.error));
    }
    return Pass;
  }

  /**
   * Revert undoes execute on the configuration file: when the file did not
   * exist before, writing it and removing it again gives the tree back. What
   * the two `systemd-sysusers` runs do to the users and groups is not part
   * of the tree.
   */
  lemma ExecuteRevertRoundTrip(t: Tree, a: CreateUsersAndGroupsSysUsers)
    requires SysusersPath !in t && WriteFile(t, SysusersPath, ConfigText(a)).Success?
    ensures var u := WriteFile(t, SysusersPath, ConfigText(a)).value;
      && u[SysusersPath] == File(ConfigText(a))
      && FileTree.RemoveFile(u, SysusersPath) == Success(t)
  {
    var u := WriteFile(t, SysusersPath, ConfigText(a)).value;
    assert u - {SysusersPath} == t;
  }
}
