/** The published device (class `DbusService`): the attribute tree created at
    start-up, the persisted settings it declares, and the refresh that writes
    the dish's position into the tree. The tree is a map from D-Bus path to
    the Python value stored there. */
module Publisher {
  import opened Wrappers
  import opened Dishy
  import opened Truncation
  import opened Identity

  /** A value held at a D-Bus path: a Python int, float or str. */
  datatype Value = Int(n: int) | Float(x: real) | Text(s: string)

  /** The D-Bus paths the driver creates. */
  datatype Path =
    | ProcessNamePath | ProcessVersionPath | ConnectionPath
    | DeviceInstancePath | ProductIdPath | ProductNamePath
    | FirmwareVersionPath | HardwareVersionPath | ConnectedPath | SerialPath | StatePath
    | FixPath | LatitudePath | LongitudePath | AltitudePath
    | CustomNamePath
  {
    /** One of the paths a refresh may write. */
    predicate IsTelemetry() {
      FixPath? || LatitudePath? || LongitudePath? || AltitudePath?
    }

    /** The path as it appears on the bus. */
    function Name(): string {
      match this
      case ProcessNamePath => "/Management/ProcessName"
      case ProcessVersionPath => "/Management/ProcessVersion"
      case ConnectionPath => "/Management/Connection"
      case DeviceInstancePath => "/DeviceInstance"
      case ProductIdPath => "/ProductId"
      case ProductNamePath => "/ProductName"
      case FirmwareVersionPath => "/FirmwareVersion"
      case HardwareVersionPath => "/HardwareVersion"
      case ConnectedPath => "/Connected"
      case SerialPath => "/Serial"
      case StatePath => "/State"
      case FixPath => "/Fix"
      case LatitudePath => "/Position/Latitude"
      case LongitudePath => "/Position/Longitude"
      case AltitudePath => "/Position/Altitude"
      case CustomNamePath => "/CustomName"
    }
  }

  /** Distinct paths are spelled differently on the bus, so a tree keyed by
      `Path` is keyed as the driver's string-keyed tree is. */
  lemma NameInjective(a: Path, b: Path)
    ensures a.Name() == b.Name() <==> a == b
  {
  }

  /** The published tree: the value held at each created path. */
  type Tree = map<Path, Value>

  /** The paths a refresh may write: those for which `IsTelemetry` holds. */
  const TelemetryPaths: set<Path> := {FixPath, LatitudePath, LongitudePath, AltitudePath}

  /** The paths written once at start-up; nothing in the driver writes them again. */
  const StaticPaths: set<Path> := {
    ProcessNamePath, ProcessVersionPath, ConnectionPath, DeviceInstancePath,
    ProductIdPath, ProductNamePath, FirmwareVersionPath, HardwareVersionPath,
    ConnectedPath, SerialPath, StatePath
  }

  /** Every path of the published tree; `/CustomName` is the one bus clients may write. */
  const AllPaths: set<Path> := StaticPaths + TelemetryPaths + {CustomNamePath}

  const ProcessName := "dbus-starlink"
  const ConnectionLabel := "gRPC"
  const DeviceInstance := 1
  const ProductId := 45108
  const ProductName := "Starlink"
  const NotAvailable := "N/A"
  const StateCode := 0x100

  /** The settings key of the custom name and its default. */
  const CustomNameKey := "CustomName"
  const DefaultCustomName := "Starlink"

  /** One entry of `supported_settings`: path, default, minimum, maximum. */
  datatype SettingSpec = SettingSpec(path: string, default: string, min: int, max: int)

  /** The published service: its bus name, the settings it declares and its tree. */
  datatype Service = Service(name: string, settings: map<string, SettingSpec>, tree: Tree)

  /** `_setup_settings`: the one persisted setting, keyed under the short id. */
  function SupportedSettings(id: string): (m: map<string, SettingSpec>)
    ensures m.Keys == {CustomNameKey}
    ensures m[CustomNameKey].path == CustomNameSettingPath(id)
    ensures m[CustomNameKey].default == DefaultCustomName
    ensures m[CustomNameKey].min == 0 && m[CustomNameKey].max == 0
  {
    map[CustomNameKey := SettingSpec(CustomNameSettingPath(id), DefaultCustomName, 0, 0)]
  }

  /** The tree holds the value `__init__` writes at every static path of
      the device `info`, with `version` read from the version file. */
  predicate HoldsStaticValues(t: Tree, info: DeviceInfo, version: string) {
    && ProcessNamePath in t && t[ProcessNamePath] == Text(ProcessName)
    && ProcessVersionPath in t && t[ProcessVersionPath] == Text(version)
    && ConnectionPath in t && t[ConnectionPath] == Text(ConnectionLabel)
    && DeviceInstancePath in t && t[DeviceInstancePath] == Int(DeviceInstance)
    && ProductIdPath in t && t[ProductIdPath] == Int(ProductId)
    && ProductNamePath in t && t[ProductNamePath] == Text(ProductName)
    && FirmwareVersionPath in t && t[FirmwareVersionPath] == Text(info.softwareVersion.GetOr(NotAvailable))
    && HardwareVersionPath in t && t[HardwareVersionPath] == Text(info.hardwareVersion.GetOr(NotAvailable))
    && ConnectedPath in t && t[ConnectedPath] == Int(1)
    && SerialPath in t && t[SerialPath] == Text(info.id)
    && StatePath in t && t[StatePath] == Int(StateCode)
  }

  /** The tree shows no fix, the zero position and the custom name `__init__` starts with. */
  predicate HoldsInitialTelemetry(t: Tree, customName: string) {
    && FixPath in t && LatitudePath in t && LongitudePath in t && AltitudePath in t && CustomNamePath in t
    && t[FixPath] == Int(0)
    && t[LatitudePath] == Float(0.0) && t[LongitudePath] == Float(0.0) && t[AltitudePath] == Float(0.0)
    && t[CustomNamePath] == Text(customName)
  }

  /** The static part of the tree `__init__` builds. */
  function StaticTree(info: DeviceInfo, version: string): (t: Tree)
    ensures t.Keys == StaticPaths
    ensures HoldsStaticValues(t, info, version)
  {
    map[
      ProcessNamePath := Text(ProcessName),
      ProcessVersionPath := Text(version),
      ConnectionPath := Text(ConnectionLabel),
      DeviceInstancePath := Int(DeviceInstance),
      ProductIdPath := Int(ProductId),
      ProductNamePath := Text(ProductName),
      FirmwareVersionPath := Text(info.softwareVersion.GetOr(NotAvailable)),
      HardwareVersionPath := Text(info.hardwareVersion.GetOr(NotAvailable)),
      ConnectedPath := Int(1),
      SerialPath := Text(info.id),
      StatePath := Int(StateCode)
    ]
  }

  /** The tree built by `__init__` before it registers the service. `version`
      is the content of the version file and `customName` the value the
      settings backend holds for the custom name. */
  function InitialTree(info: DeviceInfo, version: string, customName: string): (t: Tree)
    ensures t.Keys == AllPaths
  {
    StaticTree(info, version)
      [FixPath := Int(0)]
      [LatitudePath := Float(0.0)]
      [LongitudePath := Float(0.0)]
      [AltitudePath := Float(0.0)]
      [CustomNamePath := Text(customName)]
  }

  /** The initial tree holds the value `__init__` writes at every static path. */
  lemma InitialTreeStaticValues(info: DeviceInfo, version: string, customName: string)
    ensures HoldsStaticValues(InitialTree(info, version, customName), info, version)
  {
  }

  /** The initial tree shows no fix, the zero position and the stored custom name. */
  lemma InitialTreeTelemetry(info: DeviceInfo, version: string, customName: string)
    ensures HoldsInitialTelemetry(InitialTree(info, version, customName), customName)
  {
  }

  /** The service `__init__` creates for `info`, before its first refresh:
      named and keyed by the first eight hex digits of `sha256(info.id)`,
      holding every static value and no fix. */
  function Construct(info: DeviceInfo, sha256: string -> HexDigest, version: string, customName: string): (s: Service)
    ensures s.name == ServicePrefix + sha256(info.id)[..ShortIdLength]
    ensures s.settings.Keys == {CustomNameKey}
    ensures s.settings[CustomNameKey].path == SettingsPrefix + sha256(info.id)[..ShortIdLength] + CustomNameSuffix
    ensures s.settings[CustomNameKey].default == DefaultCustomName
    ensures s.settings[CustomNameKey].min == 0 && s.settings[CustomNameKey].max == 0
    ensures s.tree.Keys == AllPaths
    ensures HoldsStaticValues(s.tree, info, version)
    ensures HoldsInitialTelemetry(s.tree, customName)
  {
    var id := ShortIdOf(sha256, info.id);
    InitialTreeStaticValues(info, version, customName);
    InitialTreeTelemetry(info, version, customName);
    Service(ServiceName(id), SupportedSettings(id), InitialTree(info, version, customName))
  }

  /** Two devices get the same service name and settings path exactly when
      their digests share the first eight hex digits. */
  lemma ConstructNamesOnlyByShortId(a: DeviceInfo, b: DeviceInfo, sha256: string -> HexDigest,
                                     version: string, customName: string)
    ensures Construct(a, sha256, version, customName).name == Construct(b, sha256, version, customName).name
        <==> sha256(a.id)[..ShortIdLength] == sha256(b.id)[..ShortIdLength]
    ensures Construct(a, sha256, version, customName).settings == Construct(b, sha256, version, customName).settings
        <==> sha256(a.id)[..ShortIdLength] == sha256(b.id)[..ShortIdLength]
  {
  }

  /** The test `refresh` makes: latitude and longitude both present. */
  predicate HasFix(p: Position) {
    p.latitude.Some? && p.longitude.Some?
  }

  /** A position `refresh` can take: a fix comes with an altitude. */
  predicate Writable(p: Position) {
    HasFix(p) ==> p.altitude.Some?
  }

  /** The tree has every path a refresh writes. */
  predicate Publishable(t: Tree) {
    FixPath in t && LatitudePath in t && LongitudePath in t && AltitudePath in t
  }

  /** `refresh` once the position is known. With a fix it sets `/Fix` to 1 and
      writes the position, the altitude truncated toward zero; without one it
      sets `/Fix` to 0 and keeps the last position. Writing to a path the
      tree does not have would raise, and `int(None)` would raise, so both
      are excluded; `get_position` never splits the triple. */
  function Refresh(t: Tree, p: Position): (t': Tree)
    requires Publishable(t)
    requires Writable(p)
    ensures t'.Keys == t.Keys
    ensures forall path :: path in t && !path.IsTelemetry() ==> t'[path] == t[path]
    ensures HasFix(p) ==>
      t'[FixPath] == Int(1) &&
      t'[LatitudePath] == Float(p.latitude.value) &&
      t'[LongitudePath] == Float(p.longitude.value) &&
      t'[AltitudePath] == Int(PyInt(p.altitude.value))
    ensures !HasFix(p) ==>
      t'[FixPath] == Int(0) &&
      t'[LatitudePath] == t[LatitudePath] &&
      t'[LongitudePath] == t[LongitudePath] &&
      t'[AltitudePath] == t[AltitudePath]
  {
    if HasFix(p) then
      t[FixPath := Int(1)]
       [LatitudePath := Float(p.latitude.value)]
       [LongitudePath := Float(p.longitude.value)]
       [AltitudePath := Int(PyInt(p.altitude.value))]
    else
      t[FixPath := Int(0)]
  }

  /** Refreshing twice with the same position gives the state of refreshing once. */
  lemma RefreshIdempotent(t: Tree, p: Position)
    requires Publishable(t)
    requires Writable(p)
    ensures Publishable(Refresh(t, p))
    ensures Refresh(Refresh(t, p), p) == Refresh(t, p)
  {
  }

  /** After a refresh the tree holds the same data whatever it held before,
      except that without a fix the last position stays. */
  lemma RefreshForgetsPreviousFix(t: Tree, u: Tree, p: Position)
    requires Publishable(t) && Publishable(u) && t.Keys == u.Keys
    requires forall path :: path in t && !path.IsTelemetry() ==> t[path] == u[path]
    requires HasFix(p) && Writable(p)
    ensures Refresh(t, p) == Refresh(u, p)
  {
  }

  /** The example of a fix followed by a no-location reply: the flag drops
      to 0 and the last position stays. */
  lemma NoFixKeepsLastPosition(t: Tree)
    requires Publishable(t)
    ensures var after := Refresh(Refresh(t, Position(Some(37.0), Some(-122.0), Some(10.2))), NoFix);
      after[FixPath] == Int(0) &&
      after[LatitudePath] == Float(37.0) &&
      after[LongitudePath] == Float(-122.0) &&
      after[AltitudePath] == Int(10)
  {
  }

  /** The tree after `refresh` has been called with each of `ps` in turn. */
  function RefreshAll(t: Tree, ps: seq<Position>): (t': Tree)
    requires Publishable(t)
    requires forall i :: 0 <= i < |ps| ==> Writable(ps[i])
    ensures t'.Keys == t.Keys
    ensures forall path :: path in t && !path.IsTelemetry() ==> t'[path] == t[path]
    decreases |ps|
  {
    if |ps| == 0 then t
    else Refresh(RefreshAll(t, ps[..|ps| - 1]), ps[|ps| - 1])
  }

  /** The last position of `ps` that has a fix, if any. */
  function LastFix(ps: seq<Position>): (r: Option<Position>)
    ensures r.Some? ==> HasFix(r.value)
    ensures r.Some? ==>
      exists k :: 0 <= k < |ps| && ps[k] == r.value && forall j :: k < j < |ps| ==> !HasFix(ps[j])
    ensures r.None? ==> forall i :: 0 <= i < |ps| ==> !HasFix(ps[i])
    decreases |ps|
  {
    if |ps| == 0 then None
    else if HasFix(ps[|ps| - 1]) then Some(ps[|ps| - 1])
    else LastFix(ps[..|ps| - 1])
  }

  /** Whatever sequence of positions `refresh` sees, `/Fix` reflects the last
      one, and the published position is that of the last fix, or the one
      held before when there was none. */
  lemma {:induction false} RefreshAllPublishesLastFix(t: Tree, ps: seq<Position>)
    requires Publishable(t)
    requires forall i :: 0 <= i < |ps| ==> Writable(ps[i])
    ensures |ps| > 0 ==> RefreshAll(t, ps)[FixPath] == Int(if HasFix(ps[|ps| - 1]) then 1 else 0)
    ensures LastFix(ps).None? ==>
      RefreshAll(t, ps)[LatitudePath] == t[LatitudePath] &&
      RefreshAll(t, ps)[LongitudePath] == t[LongitudePath] &&
      RefreshAll(t, ps)[AltitudePath] == t[AltitudePath]
    ensures LastFix(ps).Some? ==>
      var p := LastFix(ps).value;
      p.altitude.Some? &&
      RefreshAll(t, ps)[LatitudePath] == Float(p.latitude.value) &&
      RefreshAll(t, ps)[LongitudePath] == Float(p.longitude.value) &&
      RefreshAll(t, ps)[AltitudePath] == Int(PyInt(p.altitude.value))
    decreases |ps|
  {
    if |ps| > 0 {
      var init := ps[..|ps| - 1];
      assert forall i :: 0 <= i < |init| ==> init[i] == ps[i];
      RefreshAllPublishesLastFix(t, init);
    }
  }

  /** A refresh changes no static value and not the custom name. */
  lemma StaticValuesSurviveRefresh(t: Tree, p: Position, info: DeviceInfo, version: string)
    requires Publishable(t) && Writable(p)
    requires HoldsStaticValues(t, info, version)
    ensures HoldsStaticValues(Refresh(t, p), info, version)
    ensures CustomNamePath in t ==> Refresh(t, p)[CustomNamePath] == t[CustomNamePath]
  {
  }

  /** No number of refreshes changes a static value or the custom name. */
  lemma {:induction false} StaticValuesSurviveRefreshes(t: Tree, ps: seq<Position>, info: DeviceInfo, version: string)
    requires Publishable(t)
    requires forall i :: 0 <= i < |ps| ==> Writable(ps[i])
    requires HoldsStaticValues(t, info, version)
    ensures HoldsStaticValues(RefreshAll(t, ps), info, version)
    ensures CustomNamePath in t ==> RefreshAll(t, ps)[CustomNamePath] == t[CustomNamePath]
    decreases |ps|
  {
    if |ps| > 0 {
      var init := ps[..|ps| - 1];
      assert forall i :: 0 <= i < |init| ==> init[i] == ps[i];
      StaticValuesSurviveRefreshes(t, init, info, version);
      StaticValuesSurviveRefresh(RefreshAll(t, init), ps[|ps| - 1], info, version);
    }
  }

  /** The tree after one `refresh` call and the exception it raised, if any. */
  datatype Cycle = Cycle(tree: Tree, raised: Option<Exception>)

  /** `refresh` as a whole: ask the dish for its position, then write it.
      A transport error escapes before anything is written. */
  function RefreshCycle(t: Tree, reply: Reply<Location>): (c: Cycle)
    requires Publishable(t)
    ensures c.raised.Some? <==> reply.TransportFailure?
    ensures c.raised.Some? ==> c.tree == t && c.raised.value == RpcError(reply.code, reply.details)
    ensures c.tree.Keys == t.Keys
    ensures forall path :: path in t && !path.IsTelemetry() ==> c.tree[path] == t[path]
    ensures reply.Delivered? && (reply.response.status.code != 0 || reply.response.body.lla.None?) ==>
      c.tree == t[FixPath := Int(0)]
    ensures reply.Delivered? && reply.response.status.code == 0 && reply.response.body.lla.Some? ==>
      var lla := reply.response.body.lla.value;
      c.tree[FixPath] == Int(1) &&
      c.tree[LatitudePath] == Float(lla.lat) &&
      c.tree[LongitudePath] == Float(lla.lon) &&
      c.tree[AltitudePath] == Int(PyInt(lla.alt))
  {
    match GetPosition(reply)
    case Failure(e) => Cycle(t, Some(e))
    case Success(p) => Cycle(Refresh(t, p), None)
  }

  /** `refresh` as written, over the `get_position` that raises for every
      non-zero status. Nothing is written before an exception escapes. */
  function RefreshCycleAsWritten(t: Tree, reply: Reply<Location>): (c: Cycle)
    requires Publishable(t)
    ensures c.raised.Some? <==> reply.TransportFailure? || reply.response.status.code != 0
    ensures c.raised.Some? ==> c.tree == t
    ensures reply.Delivered? && reply.response.status.code != 0 ==> c.raised == Some(NoneAttribute("status"))
  {
    match GetPositionAsWritten(reply)
    case Failure(e) => Cycle(t, Some(e))
    case Success(p) => Cycle(Refresh(t, p), None)
  }

  /** The cycle as written and the corrected one differ exactly on a delivered
      reply with a non-zero status: as written it raises and writes nothing,
      corrected it reports no fix and keeps the last position. */
  lemma RefreshCycleCorrectsAsWritten(t: Tree, reply: Reply<Location>)
    requires Publishable(t)
    ensures RefreshCycleAsWritten(t, reply) != RefreshCycle(t, reply) <==>
      reply.Delivered? && reply.response.status.code != 0
    ensures reply.Delivered? && reply.response.status.code != 0 ==>
      RefreshCycleAsWritten(t, reply) == Cycle(t, Some(NoneAttribute("status"))) &&
      RefreshCycle(t, reply) == Cycle(t[FixPath := Int(0)], None)
  {
  }

  /** The end of `__init__`: the first refresh either raised, and construction
      fails with its exception, or the service holds the refreshed tree. */
  function Finish(built: Service, cycle: Cycle): Result<Service, Exception>
  {
    if cycle.raised.Some? then Failure(cycle.raised.value)
    else Success(built.(tree := cycle.tree))
  }

  /** `__init__`: fetch the device info, build and register the tree, then
      refresh once. Any exception aborts construction, so no service results.
      This is `__init__` over the corrected `get_position`. */
  function Init(infoReply: Reply<DeviceInfo>, sha256: string -> HexDigest, version: string,
                customName: string, positionReply: Reply<Location>): (r: Result<Service, Exception>)
    ensures infoReply.TransportFailure? ==> r == Failure(RpcError(infoReply.code, infoReply.details))
    ensures infoReply.Delivered? && infoReply.response.status.code != 0 ==>
      r == Failure(NoneAttribute("get_device_info"))
    ensures infoReply.Delivered? && infoReply.response.status.code == 0 && positionReply.TransportFailure? ==>
      r == Failure(RpcError(positionReply.code, positionReply.details))
    ensures r.Success? <==>
      infoReply.Delivered? && infoReply.response.status.code == 0 && positionReply.Delivered?
    ensures r.Success? ==>
      var info := infoReply.response.body;
      var built := Construct(info, sha256, version, customName);
      r.value.name == built.name &&
      r.value.settings == built.settings &&
      r.value.tree == RefreshCycle(built.tree, positionReply).tree
  {
    match GetDeviceInfo(infoReply)
    case Failure(e) => Failure(e)
    case Success(info) =>
      var built := Construct(info, sha256, version, customName);
      Finish(built, RefreshCycle(built.tree, positionReply))
  }

  /** `__init__` as written: its first refresh raises for a non-zero status,
      after the tree was registered, so construction fails. */
  function InitAsWritten(infoReply: Reply<DeviceInfo>, sha256: string -> HexDigest, version: string,
                         customName: string, positionReply: Reply<Location>): (r: Result<Service, Exception>)
    ensures r.Success? <==>
      infoReply.Delivered? && infoReply.response.status.code == 0 &&
      positionReply.Delivered? && positionReply.response.status.code == 0
    ensures (infoReply.Delivered? && infoReply.response.status.code == 0 &&
             positionReply.Delivered? && positionReply.response.status.code != 0) ==>
      r == Failure(NoneAttribute("status"))
  {
    match GetDeviceInfo(infoReply)
    case Failure(e) => Failure(e)
    case Success(info) =>
      var built := Construct(info, sha256, version, customName);
      Finish(built, RefreshCycleAsWritten(built.tree, positionReply))
  }

  /** `__init__` as written and over the corrected `get_position` differ
      exactly when the device info arrives and the first location reply has
      a non-zero status. */
  lemma InitCorrectsAsWritten(infoReply: Reply<DeviceInfo>, sha256: string -> HexDigest, version: string,
                              customName: string, positionReply: Reply<Location>)
    ensures InitAsWritten(infoReply, sha256, version, customName, positionReply)
         != Init(infoReply, sha256, version, customName, positionReply)
        <==> infoReply.Delivered? && infoReply.response.status.code == 0 &&
             positionReply.Delivered? && positionReply.response.status.code != 0
  {
  }

  /** A service `__init__` returns holds every static value, the stored custom
      name and the telemetry of its first reply: the fix with altitude
      truncated, or no fix at the zero position. */
  lemma InitPublishesFirstReply(infoReply: Reply<DeviceInfo>, sha256: string -> HexDigest, version: string,
                                customName: string, positionReply: Reply<Location>)
    requires infoReply.Delivered? && infoReply.response.status.code == 0 && positionReply.Delivered?
    ensures var info := infoReply.response.body;
      var s := Init(infoReply, sha256, version, customName, positionReply).value;
      && s.name == ServicePrefix + sha256(info.id)[..ShortIdLength]
      && s.tree.Keys == AllPaths
      && HoldsStaticValues(s.tree, info, version)
      && s.tree[CustomNamePath] == Text(customName)
    ensures var s := Init(infoReply, sha256, version, customName, positionReply).value;
      positionReply.response.status.code != 0 || positionReply.response.body.lla.None? ==>
      && s.tree[FixPath] == Int(0)
      && s.tree[LatitudePath] == Float(0.0)
      && s.tree[LongitudePath] == Float(0.0)
      && s.tree[AltitudePath] == Float(0.0)
    ensures var s := Init(infoReply, sha256, version, customName, positionReply).value;
      positionReply.response.status.code == 0 && positionReply.response.body.lla.Some? ==>
      var lla := positionReply.response.body.lla.value;
      && s.tree[FixPath] == Int(1)
      && s.tree[LatitudePath] == Float(lla.lat)
      && s.tree[LongitudePath] == Float(lla.lon)
      && s.tree[AltitudePath] == Int(PyInt(lla.alt))
  {
    var info := infoReply.response.body;
    var built := Construct(info, sha256, version, customName);
    var p := GetPosition(positionReply).value;
    assert Init(infoReply, sha256, version, customName, positionReply).value.tree == Refresh(built.tree, p);
    StaticValuesSurviveRefresh(built.tree, p, info, version);
  }

  /** The example device: a first reply at 47.6, -122.3, 15.7 publishes a fix
      with altitude 15, and the absent firmware version reads "N/A". */
  lemma InitExample(sha256: string -> HexDigest)
    ensures var info := DeviceInfo("KU123456789", None, None);
      var r := Init(Delivered(Response(Status(0, ""), info)), sha256, "v1", DefaultCustomName,
                    Delivered(Response(Status(0, ""), Location(Some(Lla(47.6, -122.3, 15.7))))));
      r.Success? &&
      r.value.name == ServicePrefix + sha256("KU123456789")[..8] &&
      r.value.tree[FixPath] == Int(1) &&
      r.value.tree[LatitudePath] == Float(47.6) &&
      r.value.tree[LongitudePath] == Float(-122.3) &&
      r.value.tree[AltitudePath] == Int(15) &&
      r.value.tree[FirmwareVersionPath] == Text("N/A") &&
      r.value.tree[SerialPath] == Text("KU123456789")
  {
    var info := DeviceInfo("KU123456789", None, None);
    var reply := Delivered(Response(Status(0, ""), Location(Some(Lla(47.6, -122.3, 15.7)))));
    var built := Construct(info, sha256, "v1", DefaultCustomName);
    var cycle := RefreshCycle(built.tree, reply);
    PyIntExamples();
    assert cycle.tree[AltitudePath] == Int(15);
    assert cycle.tree[FirmwareVersionPath] == built.tree[FirmwareVersionPath] == Text("N/A");
    assert cycle.tree[SerialPath] == built.tree[SerialPath];
  }
}
