# dbus-starlink device bridge, modelled in Dafny

This project models the logic of `starlink.py`, a Venus OS driver that publishes the
position reported by a Starlink dish as a GPS device on D-Bus. It covers three parts:

- **The dish client** (`Dishy`). It turns a response envelope into a value or `None`,
  depending on the status code, and lets a transport error (`grpc.RpcError`) propagate.
  It turns a location message with an optional `lla` sub-message into a
  latitude/longitude/altitude triple.
- **The device identity** (`Identity`). The short id is the first eight hex digits of
  the SHA-256 digest of the device id. The D-Bus service name and the settings path of
  the custom name are built from it.
- **The published device** (`DbusService`). This covers the initial attribute tree, the
  declared settings, the `refresh` transition and `__init__`. Both `refresh` and
  `__init__` are modelled twice: as written, and over the corrected `get_position`
  (see Findings).

Files:

- `wrappers.dfy`: `Option` and `Result`.
- `dishy.dfy`: the dish client.
- `identity.dfy`: the short id and the names built from it.
- `truncation.dfy`: Python's `int()` on a float.
- `publisher.dfy`: the published tree, `refresh` and `__init__`.

Modelling choices:

- The D-Bus tree is a `map` from `Path` to a Python value: `Int`, `Float` or `Text`.
  `Path` enumerates the sixteen paths the driver creates; `Path.Name` gives each one's
  bus spelling.
- Doubles are `real`.
- SHA-256 is a parameter `sha256: string -> HexDigest`. A `HexDigest` is any 64-character
  lower-case hex string.
- The outcome of each gRPC call is a parameter of type `Reply`: a delivered envelope or a
  transport failure.
- The version-file content and the custom name held by the settings backend are
  parameters too.

Facts about the code that the model keeps:

- `refresh` has no `try`, so an `RpcError` escapes it. `RefreshCycle` and
  `RefreshCycleAsWritten` report it as raised, with nothing written.
- On a non-zero status for the device-info request, `_make_request` logs a warning and
  returns `None`; `get_device_info` then raises reading `get_device_info` on it.
  `GetDeviceInfo` models this as a `NoneAttribute` failure.
- The service name is `com.victronenergy.gps.starlink_` followed by the short id.
- `get_position` raises for every non-zero status instead of returning the all-`None`
  position (see Findings). `RefreshCycle` and `Init` use the corrected `GetPosition`;
  `RefreshCycleAsWritten` and `InitAsWritten` use the code as written.

## Model

| member | source | states |
|---|---|---|
| Dishy.MakeRequest | starlink.py:33-43 | a response comes back exactly when its status code is 0, and it comes back unchanged; any other status gives `None` and raises nothing; a transport error is raised unchanged and never becomes a value |
| Dishy.StatusBranchUnreachable | starlink.py:37-55 | any response `_make_request` returns has status 0, so the non-zero-status branch of `get_position` can never be entered |
| Dishy.GetDeviceInfo | starlink.py:45-47 | status 0 gives the device info; a non-zero status raises (attribute read on `None`); a transport error propagates |
| Dishy.FromLocation | starlink.py:57-62 | latitude, longitude and altitude are all present, taken from `lla`, when `lla` is set, and all `None` when it is not |
| Dishy.GetPositionAsWritten | starlink.py:50-62 | as written, `get_position` raises exactly for the replies with a non-zero status; it returns a position only for status 0 |
| Dishy.GetPositionAsWrittenRaisesOnStatus | starlink.py:51-55 | a reply with status 5 makes the as-written `get_position` raise, where the corrected one reports no fix |
| Dishy.GetPosition | starlink.py:50-62 | a transport error propagates; a non-zero status gives the all-`None` position; status 0 gives the location's triple; latitude and longitude are never split |
| Dishy.GetPositionCorrectsAsWritten | starlink.py:51-55 | the corrected and as-written `get_position` differ exactly on the replies with a non-zero status, and agree wherever the as-written one returns |
| Truncation.PyInt | starlink.py:122 | `int()` of a float lies within one unit of it, on the zero side |
| Truncation.PyIntTowardZero | starlink.py:122 | truncation keeps the sign, never moves away from zero, and maps values strictly between -1 and 1 to 0 |
| Truncation.PyIntIsFloorIff | starlink.py:122 | truncation equals floor exactly for non-negative or whole values, so it is not floor |
| Truncation.PyIntExamples | starlink.py:122 | -3.7 truncates to -3 while its floor is -4; 15.7 truncates to 15 |
| Identity.ShortId | starlink.py:68 | the short id has 8 hex digits and is a prefix of the digest |
| Identity.ShortIdOf | starlink.py:68 | the short id of a device id is an 8-hex-digit prefix of that id's digest |
| Identity.ServiceName | starlink.py:72 | the service name is the fixed prefix followed by exactly the short id |
| Identity.CustomNameSettingPath | starlink.py:110-112 | the settings path is the fixed prefix, then exactly the short id, then `/CustomName` |
| Identity.ServiceNameInjective | starlink.py:72 | two short ids give the same service name if and only if they are equal |
| Identity.CustomNameSettingPathInjective | starlink.py:110-112 | two short ids give the same settings path if and only if they are equal |
| Publisher.SupportedSettings | starlink.py:109-114 | exactly one setting, `CustomName`, is declared; it is stored at the short id's path with default `Starlink`, minimum 0 and maximum 0 |
| Publisher.NameInjective | starlink.py:76-104 | the sixteen paths have pairwise distinct bus names, so the tree keyed by `Path` keeps one entry per created path |
| Publisher.StaticTree | starlink.py:76-88 | the static paths are exactly the eleven created, each holding its fixed value |
| Publisher.InitialTree | starlink.py:76-104 | the initial tree has exactly the sixteen paths `__init__` creates |
| Publisher.InitialTreeStaticValues | starlink.py:76-88 | every static path holds its fixed value: `dbus-starlink`, the version-file content, `gRPC`, instance 1, product id 45108, `Starlink`, the firmware and hardware versions or `N/A` when absent, connected 1, the raw id as serial, and state 0x100 |
| Publisher.InitialTreeTelemetry | starlink.py:90-104 | the initial tree shows no fix (`/Fix` 0) at position 0.0, 0.0, 0.0, and `/CustomName` holds the stored custom name |
| Publisher.Construct | starlink.py:65-112 | the service is named `com.victronenergy.gps.starlink_` plus the first 8 digits of `sha256(id)`; its one setting is stored at `/Settings/Devices/starlink_` plus those digits plus `/CustomName` with default `Starlink`, minimum 0 and maximum 0; its tree has every path, every static value and no fix |
| Publisher.ConstructNamesOnlyByShortId | starlink.py:68-72 | two devices get the same service name, and the same settings, if and only if their digests agree on the first 8 hex digits |
| Publisher.Refresh | starlink.py:116-126 | with a fix: `/Fix` is 1, latitude and longitude are written as received, and altitude is `int()` of the altitude; without a fix: `/Fix` is 0 and the position is kept; no other path changes |
| Publisher.RefreshIdempotent | starlink.py:116-126 | refreshing twice with the same position gives the same tree as refreshing once |
| Publisher.RefreshForgetsPreviousFix | starlink.py:118-122 | after a refresh with a fix, the tree no longer depends on the telemetry it held before |
| Publisher.NoFixKeepsLastPosition | starlink.py:116-126 | a fix at 37.0, -122.0, 10.2 followed by no fix leaves `/Fix` at 0 and the position at 37.0, -122.0, 10 |
| Publisher.StaticValuesSurviveRefresh | starlink.py:116-126 | a refresh changes no static value and not the custom name |
| Publisher.StaticValuesSurviveRefreshes | starlink.py:116-126 | no sequence of refreshes changes a static value written at start-up or the custom name |
| Publisher.RefreshAll | starlink.py:116-126 | any number of successive refreshes keeps the tree's paths and never changes a static path |
| Publisher.RefreshAllPublishesLastFix | starlink.py:116-126 | after any sequence of refreshes, `/Fix` reflects the last position; the published position is the last fix seen, with altitude truncated, or the previous one if no position had a fix |
| Publisher.RefreshCycle | starlink.py:116-126 | over the corrected `get_position`: a transport error raises and leaves the tree unchanged; a non-zero status or an absent `lla` sets `/Fix` to 0 and changes nothing else; a located reply publishes the fix; static paths never change |
| Publisher.RefreshCycleAsWritten | starlink.py:116-126 | as written: a transport error or any non-zero status raises and leaves the tree unchanged; a non-zero status raises the attribute error of reading `status` on `None` |
| Publisher.RefreshCycleCorrectsAsWritten | starlink.py:51-55 | the as-written and corrected refresh differ exactly on delivered replies with a non-zero status: as written the tree is unchanged and an exception escapes, corrected `/Fix` becomes 0 |
| Publisher.Init | starlink.py:65-107 | over the corrected `get_position`: a failed device-info request, or a transport error in the first refresh, aborts construction with that exception; otherwise the service is the constructed one after one refresh |
| Publisher.InitAsWritten | starlink.py:65-107 | as written: construction succeeds exactly when the device info arrives with status 0 and the first location reply has status 0; a non-zero location status aborts it with the attribute error |
| Publisher.InitCorrectsAsWritten | starlink.py:51-55 | the as-written and corrected `__init__` differ exactly when the device info arrives and the first location reply has a non-zero status |
| Publisher.InitPublishesFirstReply | starlink.py:65-126 | a constructed service has the digest-derived name, every path, every static value and the stored custom name; its telemetry is the first reply's fix with altitude truncated, or no fix at the zero position |
| Publisher.InitExample | starlink.py:65-122 | device `KU123456789` with a first fix at 47.6, -122.3, 15.7 publishes fix 1 with altitude 15, firmware `N/A` and serial `KU123456789`, under the name built from its digest's first 8 digits |

## Findings

| source | as written | input that shows it | evidently intended | confidence | as-written member | corrected member |
|---|---|---|---|---|---|---|
| starlink.py:51-55 | `r.status.code` is read on what `_make_request` returned, and that is `None` for every non-zero status; so `get_position` raises `AttributeError` | a delivered reply with status code 5 | return the all-`None` position, so that `refresh` reports no fix | high; not executed | Dishy.GetPositionAsWritten | Dishy.GetPosition |

`Dishy.GetPositionAsWrittenRaisesOnStatus` exhibits the discrepancy. `Dishy.GetPositionCorrectsAsWritten` shows that the two versions differ on exactly those replies. The same split runs through `refresh` (`Publisher.RefreshCycleAsWritten`, `Publisher.RefreshCycle`, related by `Publisher.RefreshCycleCorrectsAsWritten`) and `__init__` (`Publisher.InitAsWritten`, `Publisher.Init`, related by `Publisher.InitCorrectsAsWritten`).

## Left out

- Channel mechanics (`grpc.insecure_channel`, the stub, the 10-second timeout, `close`): transport I/O. Only the two outcomes of a call are modelled.
- SHA-256 and the UTF-8 `encode()` of the id: library calls. They are the parameter `sha256`.
- D-Bus publication (`VeDbusService`, `add_path`, `register`, `dbus.SystemBus`) and `SettingsDevice` persistence: foreign libraries. The tree is a map keyed by `Path`. The custom name the settings backend returns is a parameter. Registration is the point in `Init` before the first refresh.
- The write callback for `/CustomName`: `_handle_writable_setting_change` is not defined in `starlink.py`, so no behaviour for writes to the custom name is modelled.
- The GLib main loop and the 60-second timer in `main`: event-loop scheduling. `refresh` returns `None`, so `GLib.timeout_add` would drop the timer after its first tick. As written, `refresh` therefore runs at most twice: once in `__init__` and once on the timer. `Publisher.RefreshAll` states what any number of calls would leave.
- The version-file read, logging, `sys.path` setup and `main`: process plumbing. The version string is a parameter, and log messages are not modelled.
- Floating point: latitude and longitude are passed through as `real`. `Truncation.PyInt` is `int()` for finite values only; `int()` of NaN or infinity raises, and that is not modelled.
- The D-Bus value types: the altitude starts as the float 0.0 and later holds an int. `Value` records which, but D-Bus integer widths are not modelled.
- Publisher.RefreshCycle: models `refresh` over the corrected `get_position`. For a non-zero status it reports no fix where the code raises; `Publisher.RefreshCycleAsWritten` models the code as written.
- Publisher.Init: models `__init__` over the corrected `get_position`. For a non-zero first location status it succeeds where the code raises after `register()`; `Publisher.InitAsWritten` models the code as written. The registration that has already happened when `__init__` raises is not modelled.
- Publisher.Refresh: requires that latitude and longitude come with an altitude. `int(None)` would raise after `/Fix` and the position were written. `get_position` never produces such a position, so that partial write is not modelled.
