/** The state of a simulated client and what each activity does to it. */
module Activities {
  import opened Workflows
  import opened Results

  datatype PowerState = PowerOn | PowerOff | Restarting

  datatype CrippleMode = NotCrippled | FailPackageOps | FailConfig | Silent

  datatype ClientState = ClientState(
    packages: map<string, string>, configVersion: int, power: PowerState,
    crippled: bool, mode: CrippleMode, recoveryAttempts: int)

  const INITIAL := ClientState(map[], 1, PowerOn, false, NotCrippled, 0)

  /** A parameter value; a float counts by its integer part. */
  datatype Param = PStr(s: string) | PInt(i: int) | PFloat(truncated: int) | POther

  datatype Activity = Activity(kind: ActivityType, params: map<string, Param>)

  function TextParam(a: Activity, name: string): string {
    if name in a.params && a.params[name].PStr? then a.params[name].s else ""
  }

  function ConfigVersion(a: Activity): int {
    if "config_version" !in a.params then 0
    else
      match a.params["config_version"]
      case PInt(i) => i
      case PFloat(i) => i
      case _ => 0
  }

  function VersionOrLatest(a: Activity): string {
    if TextParam(a, "version") == "" then "latest" else TextParam(a, "version")
  }

  /** Rebooting clears whatever crippled the client. */
  function Rebooted(s: ClientState): ClientState {
    s.(power := PowerOn, crippled := false, mode := NotCrippled, recoveryAttempts := 0)
  }

  function ExecuteActivity(a: Activity, s: ClientState): (ClientState, Status) {
    var pkg := TextParam(a, "package");
    match a.kind
    case Reboot => (Rebooted(s), Success)
    case InstallPackage =>
      if pkg == "" then (s, Errored)
      else if pkg in s.packages then (s, Failure)
      else (s.(packages := s.packages[pkg := VersionOrLatest(a)]), Success)
    case UpgradePackage =>
      if pkg == "" then (s, Errored)
      else if pkg !in s.packages then (s, Failure)
      else (s.(packages := s.packages[pkg := VersionOrLatest(a)]), Success)
    case RemovePackage =>
      if pkg == "" then (s, Errored)
      else if pkg !in s.packages then (s, Failure)
      else (s.(packages := s.packages - {pkg}), Success)
    case ApplyConfig => (s.(configVersion := ConfigVersion(a)), Success)
    case ValidateConfig => (s, if s.configVersion != ConfigVersion(a) then Failure else Success)
    case RunScript => (s, Success)
    case UnknownActivity(_) => (s, Errored)
  }

  /** An activity that does not succeed changes nothing, and none but a reboot touches the cripple fields. */
  lemma {:induction false} OnlySuccessChanges(a: Activity, s: ClientState)
    ensures var (t, status) := ExecuteActivity(a, s);
            && (status != Success ==> t == s)
            && (!a.kind.Reboot? ==> t.crippled == s.crippled && t.mode == s.mode && t.power == s.power)
  {
  }

  /** Removing what was just installed gives back the state before, and so does installing what was removed. */
  lemma {:induction false} InstallAndRemoveCancel(a: Activity, b: Activity, s: ClientState)
    requires a.kind.InstallPackage? && b.kind.RemovePackage? && TextParam(a, "package") == TextParam(b, "package")
    ensures ExecuteActivity(a, s).1 == Success ==>
              ExecuteActivity(b, ExecuteActivity(a, s).0) == (s, Success)
    ensures ExecuteActivity(b, s).1 == Success && s.packages[TextParam(a, "package")] == VersionOrLatest(a) ==>
              ExecuteActivity(a, ExecuteActivity(b, s).0) == (s, Success)
  {
    var pkg := TextParam(a, "package");
    if pkg !in s.packages {
      assert s.packages[pkg := VersionOrLatest(a)] - {pkg} == s.packages;
    } else {
      assert (s.packages - {pkg})[pkg := s.packages[pkg]] == s.packages;
    }
  }

  /** Upgrading is removing and installing again: the same outcome and, on success, the same state. */
  lemma {:induction false} UpgradeIsReinstall(u: Activity, r: Activity, i: Activity, s: ClientState)
    requires u.kind.UpgradePackage? && r.kind.RemovePackage? && i.kind.InstallPackage?
    requires u.params == i.params && TextParam(r, "package") == TextParam(u, "package")
    ensures ExecuteActivity(u, s).1 == ExecuteActivity(r, s).1
    ensures ExecuteActivity(u, s).1 == Success ==>
              ExecuteActivity(u, s) == ExecuteActivity(i, ExecuteActivity(r, s).0)
  {
    var pkg := TextParam(u, "package");
    if pkg in s.packages {
      assert (s.packages - {pkg})[pkg := VersionOrLatest(u)] == s.packages[pkg := VersionOrLatest(u)];
    }
  }

  /** After a configuration was applied, exactly that configuration validates. */
  lemma {:induction false} AppliedValidates(a: Activity, v: Activity, s: ClientState)
    requires a.kind.ApplyConfig? && v.kind.ValidateConfig?
    ensures var t := ExecuteActivity(a, s).0;
            ExecuteActivity(v, t) == (t, if ConfigVersion(v) == ConfigVersion(a) then Success else Failure)
  {
  }

  // ---------------------------------------------------------------- outcomes, from parameters and state

  /** The text the parameters give under this name, if any. */
  predicate Gives(a: Activity, name: string, text: string) {
    text != "" && name in a.params && a.params[name] == PStr(text)
  }

  /** The version to install: the one given, or the latest. */
  ghost predicate VersionOf(a: Activity, version: string) {
    Gives(a, "version", version) || (version == "latest" && forall v :: !Gives(a, "version", v))
  }

  /** A package activity that names no package is an error. */
  lemma {:induction false} PackageMustBeNamed(a: Activity, s: ClientState)
    requires a.kind.InstallPackage? || a.kind.UpgradePackage? || a.kind.RemovePackage?
    requires forall pkg :: !Gives(a, "package", pkg)
    ensures ExecuteActivity(a, s) == (s, Errored)
  {
    if TextParam(a, "package") != "" {
      assert Gives(a, "package", TextParam(a, "package"));
    }
  }

  /** Installing needs the package to be absent, upgrading and removing need it to be there. */
  lemma {:induction false} PackageOutcomes(a: Activity, s: ClientState, pkg: string, version: string)
    requires Gives(a, "package", pkg) && VersionOf(a, version)
    ensures a.kind.InstallPackage? ==>
              ExecuteActivity(a, s) == if pkg in s.packages then (s, Failure)
                                       else (s.(packages := s.packages[pkg := version]), Success)
    ensures a.kind.UpgradePackage? ==>
              ExecuteActivity(a, s) == if pkg in s.packages then (s.(packages := s.packages[pkg := version]), Success)
                                       else (s, Failure)
    ensures a.kind.RemovePackage? ==>
              ExecuteActivity(a, s) == if pkg in s.packages then (s.(packages := s.packages - {pkg}), Success)
                                       else (s, Failure)
  {
    if TextParam(a, "version") != "" {
      assert Gives(a, "version", TextParam(a, "version"));
    }
  }

  /** Scripts always succeed and unknown activities never do; neither changes anything. */
  lemma {:induction false} OtherOutcomes(a: Activity, s: ClientState)
    ensures a.kind.RunScript? ==> ExecuteActivity(a, s) == (s, Success)
    ensures a.kind.UnknownActivity? ==> ExecuteActivity(a, s) == (s, Errored)
    ensures a.kind.Reboot? ==>
              var (t, status) := ExecuteActivity(a, s);
              && status == Success && t.power == PowerOn && !t.crippled && t.mode == NotCrippled
              && t.recoveryAttempts == 0 && t.packages == s.packages && t.configVersion == s.configVersion
  {
  }

  /** The version a configuration activity is about: a whole number, a float without its fraction, else zero. */
  predicate ConfigOf(a: Activity, version: int) {
    if "config_version" in a.params && (a.params["config_version"].PInt? || a.params["config_version"].PFloat?)
    then a.params["config_version"] == PInt(version) || a.params["config_version"] == PFloat(version)
    else version == 0
  }

  /** Applying sets that version and always succeeds; validating succeeds exactly on that version. */
  lemma {:induction false} ConfigOutcomes(a: Activity, s: ClientState, version: int)
    requires ConfigOf(a, version)
    ensures a.kind.ApplyConfig? ==> ExecuteActivity(a, s) == (s.(configVersion := version), Success)
    ensures a.kind.ValidateConfig? ==>
              ExecuteActivity(a, s) == (s, if s.configVersion == version then Success else Failure)
  {
  }

  /** A client starts without packages, powered, uncrippled, and at configuration version one. */
  lemma {:induction false} FreshClient(a: Activity, pkg: string, version: int)
    ensures a.kind.ValidateConfig? && ConfigOf(a, version) ==>
              ExecuteActivity(a, INITIAL).1 == if version == 1 then Success else Failure
    ensures a.kind.InstallPackage? && Gives(a, "package", pkg) ==> ExecuteActivity(a, INITIAL).1 == Success
    ensures a.kind.Reboot? ==> ExecuteActivity(a, INITIAL) == (INITIAL, Success)
  {
    if ConfigOf(a, version) {
      ConfigOutcomes(a, INITIAL, version);
    }
  }
}
