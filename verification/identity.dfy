/** The device identity: the first eight characters of the SHA-256 hex
    digest of the device id, and the names derived from it. SHA-256 itself
    is not modelled; it is any function onto 64-character hex strings. */
module Identity {

  const HexDigits := "0123456789abcdef"

  predicate IsHex(s: string) {
    forall i :: 0 <= i < |s| ==> s[i] in HexDigits
  }

  /** What `sha256(...).hexdigest()` returns: 64 lower-case hex digits. */
  type HexDigest = s: string | |s| == 64 && IsHex(s)
    witness seq(64, _ => '0')

  /** Length of the short id. */
  const ShortIdLength := 8

  /** `hexdigest()[:8]`. */
  function ShortId(digest: HexDigest): (id: string)
    ensures |id| == ShortIdLength && IsHex(id)
    ensures id <= digest
  {
    digest[..ShortIdLength]
  }

  /** The short id of a raw device id under the hash `sha256`. */
  function ShortIdOf(sha256: string -> HexDigest, rawId: string): (id: string)
    ensures |id| == ShortIdLength && IsHex(id)
    ensures id <= sha256(rawId)
  {
    ShortId(sha256(rawId))
  }

  const ServicePrefix := "com.victronenergy.gps.starlink_"
  const SettingsPrefix := "/Settings/Devices/starlink_"
  const CustomNameSuffix := "/CustomName"

  /** The D-Bus service name of the device with short id `id`. */
  function ServiceName(id: string): (name: string)
    ensures ServicePrefix <= name && |name| == |ServicePrefix| + |id|
    ensures name[|ServicePrefix|..] == id
  {
    ServicePrefix + id
  }

  /** The settings path under which the custom name of the device with short
      id `id` is persisted. */
  function CustomNameSettingPath(id: string): (path: string)
    ensures SettingsPrefix <= path && |path| == |SettingsPrefix| + |id| + |CustomNameSuffix|
    ensures path[|SettingsPrefix|..|SettingsPrefix| + |id|] == id
    ensures path[|SettingsPrefix| + |id|..] == CustomNameSuffix
  {
    SettingsPrefix + id + CustomNameSuffix
  }

  /** Two devices share a service name exactly when they share a short id. */
  lemma ServiceNameInjective(a: string, b: string)
    ensures ServiceName(a) == ServiceName(b) <==> a == b
  {
  }

  /** Two devices share a settings path exactly when they share a short id. */
  lemma CustomNameSettingPathInjective(a: string, b: string)
    ensures CustomNameSettingPath(a) == CustomNameSettingPath(b) <==> a == b
  {
  }
}
