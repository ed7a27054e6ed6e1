/**
 * The `Bootc` planner: installing Nix into a bootable container image. The
 * Nix store is built in `/nix`, moved to a read-only image directory, and
 * mounted back at `/nix` by an overlay whose upper and work directories
 * live under a persistent overlay directory.
 *
 * `plan` is the method `Plan`; the list it builds is `Steps`, and asking
 * each step's own planner in turn is `PlanFrom`.
 */
module BootcPlanner {
  import opened Results
  import opened FileTree
  import Actions
  import opened Settings
  import MoveDirectoryAction

  /** The planner's settings: three directories and the common settings. */
  datatype Bootc = Bootc(readonlyImage: Path, overlay: Path, systemdUnitDir: Path, settings: CommonSettings)

  /** What a planner can fail with, in as much detail as this planner uses. */
  datatype PlannerError =
    | Action(actionError: Actions.ActionError)
    | IncompatibleOperatingSystem(planner: string, hostOs: OperatingSystem)
    | InstallSettings(settingsError: SettingsError)
    | Custom(bootcError: BootcError)

  datatype OperatingSystem = Linux | Darwin | Windows | OtherOs(name: string)

  // ---------------------------------------------------------------- paths

  /** `overlay.join(name)`: the child `name` of the overlay directory. */
  function OverlaySubdir(b: Bootc, name: Name): (r: Path)
    ensures Parent(r) == Some(b.overlay) && r[|r| - 1] == name
  {
    b.overlay + [name]
  }

  /** `overlay/work`. */
  function WorkDir(b: Bootc): Path {
    OverlaySubdir(b, "work")
  }

  /** `overlay/upper`. */
  function UpperDir(b: Bootc): Path {
    OverlaySubdir(b, "upper")
  }

  /** `systemd_unit_dir/unit_name`, for a unit name that is one path component. */
  function SystemdUnitPath(b: Bootc, unitName: Name): (r: Path)
    ensures Parent(r) == Some(b.systemdUnitDir) && r[|r| - 1] == unitName
  {
    b.systemdUnitDir + [unitName]
  }

  /** The upper and the work directory are two different directories, neither inside the other. */
  lemma OverlayDirsDisjoint(b: Bootc)
    ensures !IsPrefix(WorkDir(b), UpperDir(b)) && !IsPrefix(UpperDir(b), WorkDir(b))
  {
    assert WorkDir(b)[|b.overlay|] != UpperDir(b)[|b.overlay|];
  }

  /** `default`: the three default directories and the default common settings, whose failure it passes on. */
  function Default(common: Result<CommonSettings, PlannerError>): (r: Result<Bootc, PlannerError>)
    ensures r.Failure? <==> common.Failure?
    ensures r.Failure? ==> r.error == common.error
    ensures r.Success? ==> && r.value.readonlyImage == ["usr", "lib", "nix-install"]
                           && r.value.overlay == ["var", "lib", "nix-overlay"]
                           && r.value.systemdUnitDir == ["etc", "systemd", "system"]
                           && r.value.settings == common.value
  {
    match common
    case Failure(e) => Failure(e)
    case Success(c) => Success(Bootc(["usr", "lib", "nix-install"], ["var", "lib", "nix-overlay"], ["etc", "systemd", "system"], c))
  }

  // ---------------------------------------------------------------- the steps of the plan

  /** `SELINUX_POLICY_PP_CONTENT` and `DETERMINATE_SELINUX_POLICY_PP_CONTENT`. */
  datatype SelinuxPolicy = NixPolicy | DeterminatePolicy

  datatype InitSystem = Systemd

  /** The text of a file the plan creates, by what it is made from. */
  datatype FileText =
    | TmpfilesConf(upperDir: Path, workDir: Path)
    | MountUnit(readonlyImage: Path, upperDir: Path, workDir: Path)
    | EnsureSymlinkedUnitsResolve

  /** One step of the plan: which action, planned with which arguments. */
  datatype ActionSpec =
    | CreateFile(path: Path, user: Option<string>, group: Option<string>, mode: nat, content: FileText, force: bool)
    | CreateDirectory(path: Path, user: Option<string>, group: Option<string>, mode: nat, force: bool)
    | ProvisionDeterminateNixd
    | ProvisionNix(settings: CommonSettings)
    | CreateUsersAndGroups(settings: CommonSettings)
    | ConfigureNix(settings: CommonSettings)
    | ProvisionSelinux(policyPath: Path, policy: SelinuxPolicy)
    | ConfigureUpstreamInitService(init: InitSystem, startDaemon: bool)
    | MoveDirectory(src: Path, dest: Path)
    | RemoveDirectory(path: Path)

  const NixDir: Path := ["nix"]
  const TmpfilesPath: Path := ["usr", "lib", "tmpfiles.d", "nix.conf"]
  const SelinuxPolicyPath: Path := ["etc", "nix-installer", "selinux", "packages", "nix.pp"]
  const MountUnitName: Name := "nix.mount"
  const EnsureUnitName: Name := "ensure-symlinked-units-resolve.service"

  /** Octal 0644 and 0755. */
  const FileMode := 420
  const DirMode := 493

  function SelinuxPolicyFor(d: Distribution): (r: SelinuxPolicy)
    ensures r == DeterminatePolicy <==> d == DeterminateNix
  {
    if d == DeterminateNix then DeterminatePolicy else NixPolicy
  }

  /** The five steps before the optional one. */
  function Head(b: Bootc): seq<ActionSpec> {
    [ CreateFile(TmpfilesPath, None, None, FileMode, TmpfilesConf(UpperDir(b), WorkDir(b)), false),
      CreateDirectory(NixDir, None, None, DirMode, false),
      CreateFile(SystemdUnitPath(b, MountUnitName), None, None, FileMode, MountUnit(b.readonlyImage, UpperDir(b), WorkDir(b)), false),
      CreateFile(SystemdUnitPath(b, EnsureUnitName), None, None, FileMode, EnsureSymlinkedUnitsResolve, false),
      CreateDirectory(NixDir, None, None, DirMode, true) ]
  }

  /** The eight steps after it. */
  function Tail(b: Bootc, scratchDir: Path): seq<ActionSpec> {
    [ ProvisionNix(b.settings),
      CreateUsersAndGroups(b.settings),
      ConfigureNix(b.settings),
      ProvisionSelinux(SelinuxPolicyPath, SelinuxPolicyFor(b.settings.distribution)),
      ConfigureUpstreamInitService(Systemd, false),
      MoveDirectory(NixDir, b.readonlyImage),
      CreateDirectory(NixDir, None, None, DirMode, true),
      RemoveDirectory(scratchDir) ]
  }

  /** Every step `plan` asks for, in order; `scratchDir` is `SCRATCH_DIR`. */
  function Steps(b: Bootc, scratchDir: Path): seq<ActionSpec> {
    Head(b) + (if b.settings.distribution == DeterminateNix then [ProvisionDeterminateNixd] else []) + Tail(b, scratchDir)
  }

  /**
   * Thirteen steps, or fourteen for Determinate Nix; the extra step is the
   * only `ProvisionDeterminateNixd`, right before `ProvisionNix`, and taking
   * it out leaves the thirteen.
   */
  lemma StepsCount(b: Bootc, scratchDir: Path)
    ensures var s := Steps(b, scratchDir);
      && |s| == (if b.settings.distribution == DeterminateNix then 14 else 13)
      && (forall i | 0 <= i < |s| :: s[i].ProvisionDeterminateNixd? <==> b.settings.distribution == DeterminateNix && i == 5)
      && (b.settings.distribution == DeterminateNix ==> s[6] == ProvisionNix(b.settings) && s[..5] + s[6..] == Head(b) + Tail(b, scratchDir))
      && (b.settings.distribution != DeterminateNix ==> s == Head(b) + Tail(b, scratchDir) && s[5] == ProvisionNix(b.settings))
  {
    var s := Steps(b, scratchDir);
    if b.settings.distribution == DeterminateNix {
      assert s[..5] == Head(b);
      assert s[6..] == Tail(b, scratchDir);
    }
  }

  /**
   * The end of the plan: the upstream init service is configured, then
   * `/nix` is moved to the read-only image, then an empty `/nix` is created
   * again (forcing), and removing the scratch directory comes last. This is
   * the only move.
   */
  lemma StepsEnd(b: Bootc, scratchDir: Path)
    ensures var s := Steps(b, scratchDir);
      && s[|s| - 4] == ConfigureUpstreamInitService(Systemd, false)
      && s[|s| - 3] == MoveDirectory(NixDir, b.readonlyImage)
      && s[|s| - 2] == CreateDirectory(NixDir, None, None, DirMode, true)
      && s[|s| - 1] == RemoveDirectory(scratchDir)
      && forall i | 0 <= i < |s| && s[i].MoveDirectory? :: i == |s| - 3
  {
    StepsCount(b, scratchDir);
  }

  /** The one SELinux step installs the Determinate policy exactly when the distribution is Determinate Nix. */
  lemma SelinuxPolicyChoice(b: Bootc, scratchDir: Path)
    ensures var s := Steps(b, scratchDir);
      forall i | 0 <= i < |s| && s[i].ProvisionSelinux? ::
        && s[i].policyPath == SelinuxPolicyPath
        && (s[i].policy == DeterminatePolicy <==> b.settings.distribution == DeterminateNix)
  {
    StepsCount(b, scratchDir);
  }

  /** 1 when the optional step is present, else 0. */
  function Extra(b: Bootc): nat {
    if b.settings.distribution == DeterminateNix then 1 else 0
  }

  /** Each step of the plan by its position, the tail shifted by the optional step. */
  lemma StepsAt(b: Bootc, scratchDir: Path)
    ensures |Steps(b, scratchDir)| == 13 + Extra(b)
    ensures Steps(b, scratchDir)[0] == CreateFile(TmpfilesPath, None, None, FileMode, TmpfilesConf(UpperDir(b), WorkDir(b)), false)
    ensures Steps(b, scratchDir)[1] == CreateDirectory(NixDir, None, None, DirMode, false)
    ensures Steps(b, scratchDir)[2] == CreateFile(SystemdUnitPath(b, MountUnitName), None, None, FileMode, MountUnit(b.readonlyImage, UpperDir(b), WorkDir(b)), false)
    ensures Steps(b, scratchDir)[3] == CreateFile(SystemdUnitPath(b, EnsureUnitName), None, None, FileMode, EnsureSymlinkedUnitsResolve, false)
    ensures Steps(b, scratchDir)[4] == CreateDirectory(NixDir, None, None, DirMode, true)
    ensures Extra(b) == 1 ==> Steps(b, scratchDir)[5] == ProvisionDeterminateNixd
    ensures Steps(b, scratchDir)[5 + Extra(b)] == ProvisionNix(b.settings)
    ensures Steps(b, scratchDir)[6 + Extra(b)] == CreateUsersAndGroups(b.settings)
    ensures Steps(b, scratchDir)[7 + Extra(b)] == ConfigureNix(b.settings)
    ensures Steps(b, scratchDir)[8 + Extra(b)] == ProvisionSelinux(SelinuxPolicyPath, SelinuxPolicyFor(b.settings.distribution))
    ensures Steps(b, scratchDir)[9 + Extra(b)] == ConfigureUpstreamInitService(Systemd, false)
    ensures Steps(b, scratchDir)[10 + Extra(b)] == MoveDirectory(NixDir, b.readonlyImage)
    ensures Steps(b, scratchDir)[11 + Extra(b)] == CreateDirectory(NixDir, None, None, DirMode, true)
    ensures Steps(b, scratchDir)[12 + Extra(b)] == RemoveDirectory(scratchDir)
  {
  }

  // ---------------------------------------------------------------- planning the steps

  /** A planned action: its step and the state its own `plan` gave it. */
  datatype Planned = Planned(spec: ActionSpec, state: Actions.ActionState)

  /**
   * The outcome of one step's own `plan`. `MoveDirectory::plan` is part of
   * this model; the other planners are the parameter `subPlan`.
   */
  function PlanOne(spec: ActionSpec, subPlan: ActionSpec -> Result<Actions.ActionState, Actions.ActionError>): Result<Planned, Actions.ActionError> {
    if spec.MoveDirectory? then
      match MoveDirectoryAction.Plan(spec.src, spec.dest)
      case Success(m) => Success(Planned(spec, m.state))
      case Failure(e) => Failure(e)
    else
      match subPlan(spec)
      case Success(st) => Success(Planned(spec, st))
      case Failure(e) => Failure(e)
  }

  /**
   * A planned step keeps its arguments; a move is always planned, as
   * `Uncompleted`; any other step fails exactly when its planner does, with
   * that planner's error.
   */
  lemma PlanOneSpec(spec: ActionSpec, subPlan: ActionSpec -> Result<Actions.ActionState, Actions.ActionError>)
    ensures PlanOne(spec, subPlan).Success? ==> PlanOne(spec, subPlan).value.spec == spec
    ensures spec.MoveDirectory? ==> PlanOne(spec, subPlan) == Success(Planned(spec, Actions.Uncompleted))
    ensures !spec.MoveDirectory? ==> (PlanOne(spec, subPlan).Success? <==> subPlan(spec).Success?)
    ensures !spec.MoveDirectory? && subPlan(spec).Success? ==> PlanOne(spec, subPlan).value.state == subPlan(spec).value
    ensures !spec.MoveDirectory? && subPlan(spec).Failure? ==> PlanOne(spec, subPlan).error == subPlan(spec).error
  {
  }

  /** Plan `steps` in order after the already planned `acc`, stopping at the first failure. */
  function PlanFrom(acc: seq<Planned>, steps: seq<ActionSpec>, subPlan: ActionSpec -> Result<Actions.ActionState, Actions.ActionError>): Result<seq<Planned>, PlannerError>
    decreases |steps|
  {
    if |steps| == 0 then Success(acc)
    else
      match PlanOne(steps[0], subPlan)
      case Failure(e) => Failure(Action(e))
      case Success(p) => PlanFrom(acc + [p], steps[1..], subPlan)
  }

  /** When every step plans, the result is each step with the state its planner gave, in order. */
  lemma {:induction false} PlanFromSuccess(acc: seq<Planned>, steps: seq<ActionSpec>, subPlan: ActionSpec -> Result<Actions.ActionState, Actions.ActionError>)
    requires forall i | 0 <= i < |steps| :: PlanOne(steps[i], subPlan).Success?
    ensures PlanFrom(acc, steps, subPlan).Success?
    ensures |PlanFrom(acc, steps, subPlan).value| == |acc| + |steps|
    ensures PlanFrom(acc, steps, subPlan).value[..|acc|] == acc
    ensures forall i | 0 <= i < |steps| :: PlanFrom(acc, steps, subPlan).value[|acc| + i] == PlanOne(steps[i], subPlan).value
    decreases |steps|
  {
    if |steps| > 0 {
      var p := PlanOne(steps[0], subPlan).value;
      PlanFromSuccess(acc + [p], steps[1..], subPlan);
      var r := PlanFrom(acc, steps, subPlan).value;
      assert r[..|acc| + 1] == acc + [p];
      assert r[..|acc|] == (acc + [p])[..|acc|];
      forall i | 0 <= i < |steps| ensures r[|acc| + i] == PlanOne(steps[i], subPlan).value {
        if i > 0 {
          assert steps[1..][i - 1] == steps[i];
        } else {
          assert r[|acc|] == (acc + [p])[|acc|];
        }
      }
    }
  }

  /** When step `j` is the first whose planner fails, planning fails with that planner's error, wrapped as `PlannerError::Action`. */
  lemma {:induction false} PlanFromFirstFailure(acc: seq<Planned>, steps: seq<ActionSpec>, subPlan: ActionSpec -> Result<Actions.ActionState, Actions.ActionError>, j: nat)
    requires j < |steps| && PlanOne(steps[j], subPlan).Failure?
    requires forall i | 0 <= i < j :: PlanOne(steps[i], subPlan).Success?
    ensures PlanFrom(acc, steps, subPlan) == Failure(Action(PlanOne(steps[j], subPlan).error))
    decreases |steps|
  {
    if j > 0 {
      var p := PlanOne(steps[0], subPlan).value;
      forall i | 0 <= i < j - 1 ensures PlanOne(steps[1..][i], subPlan).Success? {
        assert steps[1..][i] == steps[i + 1];
      }
      PlanFromFirstFailure(acc + [p], steps[1..], subPlan, j - 1);
    }
  }

  /** The move of `/nix` never makes planning fail: its planner always succeeds, and leaves the move `Uncompleted`. */
  lemma MoveStepNeverFails(b: Bootc, scratchDir: Path, subPlan: ActionSpec -> Result<Actions.ActionState, Actions.ActionError>)
    ensures var s := Steps(b, scratchDir);
      PlanOne(s[|s| - 3], subPlan) == Success(Planned(MoveDirectory(NixDir, b.readonlyImage), Actions.Uncompleted))
  {
    StepsEnd(b, scratchDir);
    PlanOneSpec(MoveDirectory(NixDir, b.readonlyImage), subPlan);
  }

  /** The first `i` steps have been planned, successfully and in order, into `plan`. */
  ghost predicate PlannedUpTo(plan: seq<Planned>, steps: seq<ActionSpec>, i: nat, subPlan: ActionSpec -> Result<Actions.ActionState, Actions.ActionError>) {
    && i <= |steps| && |plan| == i
    && forall k | 0 <= k < i :: PlanOne(steps[k], subPlan).Success? && plan[k] == PlanOne(steps[k], subPlan).value
  }

  /** Nothing planned yet, and everything planned is the whole plan. */
  lemma PlannedUpToEnds(plan: seq<Planned>, steps: seq<ActionSpec>, subPlan: ActionSpec -> Result<Actions.ActionState, Actions.ActionError>)
    ensures PlannedUpTo([], steps, 0, subPlan)
    ensures PlannedUpTo(plan, steps, |steps|, subPlan) ==> PlanFrom([], steps, subPlan) == Success(plan)
  {
    if PlannedUpTo(plan, steps, |steps|, subPlan) {
      PlanFromSuccess([], steps, subPlan);
      assert PlanFrom([], steps, subPlan).value == plan;
    }
  }

  /**
   * One `plan.push(X::plan().await.map_err(PlannerError::Action)?)`, where
   * `spec` is step `i` of `steps`: either the whole planning fails with this
   * step's error, or one more step is planned.
   */
  method Push(plan: seq<Planned>, spec: ActionSpec, subPlan: ActionSpec -> Result<Actions.ActionState, Actions.ActionError>, ghost steps: seq<ActionSpec>, ghost i: nat)
    returns (r: Result<seq<Planned>, PlannerError>)
    requires i < |steps| && steps[i] == spec
    requires PlannedUpTo(plan, steps, i, subPlan)
    ensures r.Success? <==> PlanOne(spec, subPlan).Success?
    ensures r.Failure? ==> r == PlanFrom([], steps, subPlan)
    ensures r.Success? ==> PlannedUpTo(r.value, steps, i + 1, subPlan)
  {
    var created := PlanOne(spec, subPlan);
    if created.Failure? {
      PlanFromFirstFailure([], steps, subPlan, i);
      return Failure(Action(created.error));
    }
    r := Success(plan + [created.value]);
    assert forall k | 0 <= k < i :: r.value[k] == plan[k];
  }

  /**
   * `plan`: push each step's planned action in order, returning the first
   * planner failure as `PlannerError::Action`; `ProvisionDeterminateNixd`
   * only for Determinate Nix.
   */
  method Plan(b: Bootc, scratchDir: Path, subPlan: ActionSpec -> Result<Actions.ActionState, Actions.ActionError>)
    returns (r: Result<seq<Planned>, PlannerError>)
    ensures r == PlanFrom([], Steps(b, scratchDir), subPlan)
  {
    var plan: seq<Planned> := [];
    ghost var steps := Steps(b, scratchDir);
    ghost var i := 0;
    StepsAt(b, scratchDir);
    PlannedUpToEnds(plan, steps, subPlan);

    r := Push(plan, CreateFile(TmpfilesPath, None, None, FileMode, TmpfilesConf(UpperDir(b), WorkDir(b)), false), subPlan, steps, i);
    if r.Failure? {
      return;
    }
    plan, i := r.value, i + 1;

    r := Push(plan, CreateDirectory(NixDir, None, None, DirMode, false), subPlan, steps, i);
    if r.Failure? {
      return;
    }
    plan, i := r.value, i + 1;

    r := Push(plan, CreateFile(SystemdUnitPath(b, MountUnitName), None, None, FileMode, MountUnit(b.readonlyImage, UpperDir(b), WorkDir(b)), false), subPlan, steps, i);
    if r.Failure? {
      return;
    }
    plan, i := r.value, i + 1;

    r := Push(plan, CreateFile(SystemdUnitPath(b, EnsureUnitName), None, None, FileMode, EnsureSymlinkedUnitsResolve, false), subPlan, steps, i);
    if r.Failure? {
      return;
    }
    plan, i := r.value, i + 1;

    r := Push(plan, CreateDirectory(NixDir, None, None, DirMode, true), subPlan, steps, i);
    if r.Failure? {
      return;
    }
    plan, i := r.value, i + 1;

    if b.settings.distribution == DeterminateNix {
      r := Push(plan, ProvisionDeterminateNixd, subPlan, steps, i);
      if r.Failure? {
        return;
      }
      plan, i := r.value, i + 1;
    }

    r := Push(plan, ProvisionNix(b.settings), subPlan, steps, i);
    if r.Failure? {
      return;
    }
    plan, i := r.value, i + 1;

    r := Push(plan, CreateUsersAndGroups(b.settings), subPlan, steps, i);
    if r.Failure? {
      return;
    }
    plan, i := r.value, i + 1;

    r := Push(plan, ConfigureNix(b.settings), subPlan, steps, i);
    if r.Failure? {
      return;
    }
    plan, i := r.value, i + 1;

    r := Push(plan, ProvisionSelinux(SelinuxPolicyPath, if b.settings.distribution == DeterminateNix then DeterminatePolicy else NixPolicy), subPlan, steps, i);
    if r.Failure? {
      return;
    }
    plan, i := r.value, i + 1;

    r := Push(plan, ConfigureUpstreamInitService(Systemd, false), subPlan, steps, i);
    if r.Failure? {
      return;
    }
    plan, i := r.value, i + 1;

    r := Push(plan, MoveDirectory(NixDir, b.readonlyImage), subPlan, steps, i);
    if r.Failure? {
      return;
    }
    plan, i := r.value, i + 1;

    r := Push(plan, CreateDirectory(NixDir, None, None, DirMode, true), subPlan, steps, i);
    if r.Failure? {
      return;
    }
    plan, i := r.value, i + 1;

    r := Push(plan, RemoveDirectory(scratchDir), subPlan, steps, i);
    if r.Failure? {
      return;
    }
    plan, i := r.value, i + 1;
    PlannedUpToEnds(plan, steps, subPlan);
    return Success(plan);
  }

  // ---------------------------------------------------------------- settings

  /** `serde_json::to_value` of a path: its display string. */
  function PathValue(p: Path): (r: Value)
    ensures r.JsonString? && |r.s| > 0 && r.s[0] == '/'
  {
    JsonString(Display(p))
  }

  const ReadonlyImageKey := "readonly_image"
  const OverlayKey := "overlay"
  const SystemdUnitDirKey := "systemd_unit_dir"

  /** `settings`: the common settings' map with the three directories inserted, or the common settings' failure. */
  function BootcSettings(b: Bootc): Result<map<string, Value>, SettingsError> {
    match b.settings.settingsMap
    case Failure(e) => Failure(e)
    case Success(common) =>
      Success(common[ReadonlyImageKey := PathValue(b.readonlyImage)][OverlayKey := PathValue(b.overlay)][SystemdUnitDirKey := PathValue(b.systemdUnitDir)])
  }

  /**
   * The settings hold every common key and the three directory keys; the
   * directories replace any common entry of the same name, and every other
   * common entry is kept. They fail only when the common settings do.
   */
  lemma BootcSettingsSpec(b: Bootc)
    ensures BootcSettings(b).Failure? <==> b.settings.settingsMap.Failure?
    ensures BootcSettings(b).Failure? ==> BootcSettings(b).error == b.settings.settingsMap.error
    ensures BootcSettings(b).Success? ==>
      var m := BootcSettings(b).value;
      var common := b.settings.settingsMap.value;
      && m.Keys == common.Keys + {ReadonlyImageKey, OverlayKey, SystemdUnitDirKey}
      && m[ReadonlyImageKey] == PathValue(b.readonlyImage)
      && m[OverlayKey] == PathValue(b.overlay)
      && m[SystemdUnitDirKey] == PathValue(b.systemdUnitDir)
      && forall k | k in common && k != ReadonlyImageKey && k != OverlayKey && k != SystemdUnitDirKey :: m[k] == common[k]
  {
  }

  /** `settings`, as the source builds it: extend an empty map, then insert the three directories. */
  method SettingsOf(b: Bootc) returns (r: Result<map<string, Value>, SettingsError>)
    ensures r == BootcSettings(b)
  {
    var m: map<string, Value> := map[];
    if b.settings.settingsMap.Failure? {
      return Failure(b.settings.settingsMap.error);
    }
    m := m + b.settings.settingsMap.value;
    assert m == b.settings.settingsMap.value;
    m := m[ReadonlyImageKey := PathValue(b.readonlyImage)];
    m := m[OverlayKey := PathValue(b.overlay)];
    m := m[SystemdUnitDirKey := PathValue(b.systemdUnitDir)];
    return Success(m);
  }

  /** The entries of `configured` that the defaults do not already have with the same value. */
  function Diff(defaults: map<string, Value>, configured: map<string, Value>): (r: map<string, Value>)
    ensures forall k :: k in r <==> k in configured && (k !in defaults || defaults[k] != configured[k])
    ensures forall k | k in r :: r[k] == configured[k]
  {
    map k | k in configured && (k !in defaults || defaults[k] != configured[k]) :: configured[k]
  }

  /**
   * Laying the difference over the defaults gives the configured value of
   * every configured key, and nothing is listed when the configuration is
   * the default one.
   */
  lemma DiffRestores(defaults: map<string, Value>, configured: map<string, Value>)
    ensures forall k | k in configured :: k in defaults + Diff(defaults, configured) && (defaults + Diff(defaults, configured))[k] == configured[k]
    ensures Diff(configured, configured) == map[]
  {
    assert Diff(configured, configured).Keys == {};
  }

  /**
   * `configured_settings`: the settings of this planner that differ from
   * those of the default planner. A failure of the default common settings,
   * or of either settings map, is passed on.
   */
  method ConfiguredSettings(b: Bootc, defaultCommon: Result<CommonSettings, PlannerError>)
    returns (r: Result<map<string, Value>, PlannerError>)
    ensures match Default(defaultCommon)
      case Failure(e) => r == Failure(e)
      case Success(d) =>
        match BootcSettings(d)
        case Failure(e) => r == Failure(InstallSettings(e))
        case Success(defaults) =>
          match BootcSettings(b)
          case Failure(e) => r == Failure(InstallSettings(e))
          case Success(configured) => r == Success(Diff(defaults, configured))
  {
    var planner := Default(defaultCommon);
    if planner.Failure? {
      return Failure(planner.error);
    }
    var defaults := SettingsOf(planner.value);
    if defaults.Failure? {
      return Failure(InstallSettings(defaults.error));
    }
    var configured := SettingsOf(b);
    if configured.Failure? {
      return Failure(InstallSettings(configured.error));
    }
    var settings := KeepChanged(defaults.value, configured.value);
    return Success(settings);
  }

  /** The loop of `configured_settings`: keep each configured entry the defaults do not have with that value. */
  method KeepChanged(defaults: map<string, Value>, configured: map<string, Value>) returns (settings: map<string, Value>)
    ensures settings == Diff(defaults, configured)
  {
    settings := map[];
    var todo := configured.Keys;
    while todo != {}
      invariant todo <= configured.Keys
      invariant forall k :: k in settings <==> k in configured && k !in todo && (k !in defaults || defaults[k] != configured[k])
      invariant forall k | k in settings :: settings[k] == configured[k]
      decreases |todo|
    {
      var key :| key in todo;
      if key !in defaults || defaults[key] != configured[key] {
        settings := settings[key := configured[key]];
      }
      todo := todo - {key};
    }
  }

  // ---------------------------------------------------------------- checks and errors

  /** The planner's name, `typetag_name()`. */
  const PlannerName := "bootc"

  /** `platform_check`: only Linux hosts are accepted. */
  function PlatformCheck(host: OperatingSystem): (r: Outcome<PlannerError>)
    ensures r.Pass? <==> host == Linux
    ensures r.Fail? ==> r.error == IncompatibleOperatingSystem(PlannerName, host)
  {
    match host
    case Linux => Pass
    case _ => Fail(IncompatibleOperatingSystem(PlannerName, host))
  }

  datatype BootcError = NotBootcContainer | PersistenceNotAvailable | BootcToolsNotAvailable

  /** The `Display` text of each error. */
  function Message(e: BootcError): string {
    match e
    case NotBootcContainer => "Not running in a bootc container environment"
    case PersistenceNotAvailable => "Persistence directory is not available or writable"
    case BootcToolsNotAvailable => "Required bootc tools are not available"
  }

  /** Each bootc error has its own, non-empty message. */
  lemma MessagesDistinct(e1: BootcError, e2: BootcError)
    ensures |Message(e1)| > 0
    ensures Message(e1) == Message(e2) ==> e1 == e2
  {
  }

  /** `expected`: every bootc error is one the operator can act on, reported as itself. */
  function Expected(e: BootcError): (r: Option<BootcError>)
    ensures r == Some(e)
  {
    match e
    case NotBootcContainer => Some(e)
    case PersistenceNotAvailable => Some(e)
    case BootcToolsNotAvailable => Some(e)
  }

  /** `From<BootcError> for PlannerError`. */
  function ToPlannerError(e: BootcError): (r: PlannerError)
    ensures r.Custom? && r.bootcError == e
  {
    Custom(e)
  }
}
