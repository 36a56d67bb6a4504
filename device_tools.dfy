/** The device-management tools: `get_device_status`, `connect_device`,
    `get_device_info` and `check_adb_and_list_devices`.

    The bridge is reached through two oracles: `adbFound`, the outcome of
    `shutil.which("adb")` (true when it returned a path), and `listing`, the outcome of
    `subprocess.run([adb, "devices"], ..., check=True)` (its `stdout` when it
    returned). The library connection is the `session` oracle of `Automation`. */
module DeviceTools {
  import opened Outcomes
  import opened PyValues
  import opened AdbDevices
  import opened Automation

  // ------------------------------------------------------------- messages

  const StatusAdbMissing := "ADB not available in PATH. Please install Android SDK platform-tools."
  const StatusListingFailed := "Failed to check connected devices: "
  const StatusNoDevices := "No devices connected. Please connect device and enable USB debugging."
  const StatusConnectionFailed := "Device connection failed: "
  const StatusCheckFailed := "Status check failed: "
  const ConnectAdbMissing := "ADB is not available in PATH"
  const ConnectNoDevices := "No Android devices connected. Please connect a device and ensure USB debugging is enabled."
  const ConnectListingFailed := "Failed to check connected devices via ADB"
  const ConnectFailed := "Failed to connect to device: "
  const InfoFailed := "Failed to get device info: "
  const CheckAdbMissing := "adb command not found in PATH"

  // ------------------------------------------------- info normalisation

  /** Output key `key` holds the info value under `src`, or `default` when `src` is
      missing. */
  predicate TakesOrDefaults(out: map<string, Value>, key: string, info: map<string, Value>, src: string, default: Value) {
    key in out && out[key] == (if src in info then info[src] else default)
  }

  /** Output key `key` holds entry `inner` of the dictionary under `outer`, or
      `default` when either is missing. */
  predicate TakesNested(out: map<string, Value>, key: string, info: map<string, Value>, outer: string, inner: string, default: Value) {
    key in out &&
    out[key] == (if outer in info && info[outer].Dict? && inner in info[outer].fields then info[outer].fields[inner] else default)
  }

  /** Output key `key` holds `v`. */
  predicate Holds(out: map<string, Value>, key: string, v: Value) {
    key in out && out[key] == v
  }

  /** The value under `key` is present and is not a dictionary, so `.get` on it raises. */
  predicate NotDict(info: map<string, Value>, key: string) {
    key in info && !info[key].Dict?
  }

  const BasicInfoKeys: set<string> := {"manufacturer", "model", "serial", "version", "sdk"}

  const ConnectInfoKeys: set<string> := BasicInfoKeys + {"display", "product"}

  const DeviceInfoKeys: set<string> :=
    {"serial", "resolution", "version", "sdk", "battery", "wifi_ip", "manufacturer", "model", "is_screen_on", "product"}

  /** The five entries of `get_device_status`'s `device_info`, for an info whose
      `version` entry (if any) has `.get`. */
  function BasicEntries(info: map<string, Value>): (m: map<string, Value>)
    requires !NotDict(info, "version")
    ensures m.Keys == BasicInfoKeys
    ensures TakesOrDefaults(m, "manufacturer", info, "manufacturer", Str(""))
    ensures TakesOrDefaults(m, "model", info, "model", Str(""))
    ensures TakesOrDefaults(m, "serial", info, "serial", Str(""))
    ensures TakesNested(m, "version", info, "version", "release", Str(""))
    ensures TakesNested(m, "sdk", info, "version", "sdk", Int(0))
  {
    map[
      "manufacturer" := Get(info, "manufacturer", Str("")),
      "model" := Get(info, "model", Str("")),
      "serial" := Get(info, "serial", Str("")),
      "version" := GetNested(info, "version", "release", Str("")).value,
      "sdk" := GetNested(info, "version", "sdk", Int(0)).value]
  }

  /** The five-key `device_info` of `get_device_status`: raises exactly when
      `version` has no `.get`. */
  function BasicInfo(info: map<string, Value>): (r: Call<map<string, Value>>)
    ensures r.Raised? <==> NotDict(info, "version")
    ensures r.Raised? ==> r.message == NoAttribute(TypeName(info["version"]), "get")
    ensures r.Returned? ==> r.value == BasicEntries(info)
  {
    var release :- GetNested(info, "version", "release", Str(""));
    Returned(BasicEntries(info))
  }

  /** The seven entries of `connect_device`'s `device_info`, for an info whose
      `version` and `display` entries (if any) have `.get`. */
  function ConnectEntries(info: map<string, Value>): (m: map<string, Value>)
    requires !NotDict(info, "version") && !NotDict(info, "display")
    ensures m.Keys == ConnectInfoKeys
    ensures TakesOrDefaults(m, "manufacturer", info, "manufacturer", Str(""))
    ensures TakesOrDefaults(m, "model", info, "model", Str(""))
    ensures TakesOrDefaults(m, "serial", info, "serial", Str(""))
    ensures TakesNested(m, "version", info, "version", "release", Str(""))
    ensures TakesNested(m, "sdk", info, "version", "sdk", Int(0))
    ensures TakesNested(m, "display", info, "display", "density", Str(""))
    ensures TakesOrDefaults(m, "product", info, "productName", Str(""))
  {
    map[
      "manufacturer" := Get(info, "manufacturer", Str("")),
      "model" := Get(info, "model", Str("")),
      "serial" := Get(info, "serial", Str("")),
      "version" := GetNested(info, "version", "release", Str("")).value,
      "sdk" := GetNested(info, "version", "sdk", Int(0)).value,
      "display" := GetNested(info, "display", "density", Str("")).value,
      "product" := Get(info, "productName", Str(""))]
  }

  /** The seven-key `device_info` of `connect_device`; the entries are evaluated in
      order, so a bad `version` is reported before a bad `display`. */
  function ConnectInfo(info: map<string, Value>): (r: Call<map<string, Value>>)
    ensures r.Raised? <==> NotDict(info, "version") || NotDict(info, "display")
    ensures r.Raised? ==>
      r.message == NoAttribute(TypeName(if NotDict(info, "version") then info["version"] else info["display"]), "get")
    ensures r.Returned? ==> r.value == ConnectEntries(info)
  {
    var release :- GetNested(info, "version", "release", Str(""));
    var density :- GetNested(info, "display", "density", Str(""));
    Returned(ConnectEntries(info))
  }

  /** An empty info dictionary normalises to the defaults. */
  lemma BasicInfoOfEmpty()
    ensures BasicInfo(map[]) == Returned(map[
      "manufacturer" := Str(""), "model" := Str(""), "serial" := Str(""),
      "version" := Str(""), "sdk" := Int(0)])
  {
  }

  /** `connect_device` reports what `get_device_status` reports, plus two keys, and
      fails on the same `version` entries (with the same message). */
  lemma ConnectInfoExtendsBasic(info: map<string, Value>)
    ensures BasicInfo(info).Raised? ==> ConnectInfo(info) == BasicInfo(info)
    ensures ConnectInfo(info).Returned? ==> BasicInfo(info).Returned?
    ensures ConnectInfo(info).Returned? ==>
      forall k :: k in BasicInfoKeys ==> BasicInfo(info).value[k] == ConnectInfo(info).value[k]
  {
  }

  // ------------------------------------------------------ get_device_status

  /** The record `get_device_status` returns. */
  datatype DeviceStatus = DeviceStatus(
    adbAvailable: bool,
    connectedDevices: seq<string>,
    deviceConnected: bool,
    deviceInfo: map<string, Value>,
    screenOn: bool,
    error: Option<string>,
    readyForAutomation: bool)

  /** The shape of every early return: nothing listed, nothing connected. */
  function Unavailable(adbAvailable: bool, error: string): (s: DeviceStatus)
    ensures s.adbAvailable == adbAvailable && s.error == Some(error)
    ensures s.connectedDevices == [] && s.deviceInfo == map[]
    ensures !s.deviceConnected && !s.screenOn && !s.readyForAutomation
  {
    DeviceStatus(adbAvailable, [], false, map[], false, Some(error), false)
  }

  /** `d = u2.connect(); info = d.info` and the normalisation, as one step that either
      yields the device info or raises. */
  function ReadBasicInfo(session: Call<Device>): (r: Call<map<string, Value>>)
    ensures r.Returned? <==>
      session.Returned? && session.value.info.Returned? && BasicInfo(session.value.info.value).Returned?
    ensures r.Returned? ==> r == BasicInfo(session.value.info.value)
  {
    var d :- session;
    var info :- d.info;
    BasicInfo(info)
  }

  /** `get_device_status`: the record starts with nothing connected and is updated
      field by field as each check passes. */
  method GetDeviceStatus(adbFound: Call<bool>, listing: Call<string>, session: Call<Device>)
    returns (status: DeviceStatus)
    // the three early returns
    ensures adbFound.Raised? ==> status == Unavailable(false, StatusCheckFailed + adbFound.message)
    ensures adbFound == Returned(false) ==> status == Unavailable(false, StatusAdbMissing)
    ensures adbFound == Returned(true) && listing.Raised? ==>
      status == Unavailable(true, StatusListingFailed + listing.message)
    ensures status.adbAvailable <==> adbFound == Returned(true)
    // the device list
    ensures adbFound == Returned(true) && listing.Returned? ==>
      status.connectedDevices == ParsedDevices(listing.value)
    ensures status.connectedDevices == [] ==>
      !status.deviceConnected && !status.readyForAutomation && status.error.Some?
    ensures adbFound == Returned(true) && listing.Returned? && ParsedDevices(listing.value) == [] ==>
      status.error == Some(StatusNoDevices)
    // the connection
    ensures status.deviceConnected <==> status.connectedDevices != [] && ReadBasicInfo(session).Returned?
    ensures status.deviceConnected ==> status.deviceInfo == ReadBasicInfo(session).value
    ensures !status.deviceConnected ==> status.deviceInfo == map[]
    ensures status.connectedDevices != [] && ReadBasicInfo(session).Raised? ==>
      status.error == Some(StatusConnectionFailed + ReadBasicInfo(session).message)
    // the screen
    ensures status.readyForAutomation ==> status.deviceConnected
    ensures status.readyForAutomation <==>
      status.deviceConnected && session.Returned? && session.value.screenOn.Returned?
    ensures status.readyForAutomation <==> status.error.None?
    ensures status.readyForAutomation ==> status.screenOn == session.value.screenOn.value
    ensures !status.readyForAutomation ==> !status.screenOn
    ensures status.deviceConnected && session.Returned? && session.value.screenOn.Raised? ==>
      status.error == Some(StatusConnectionFailed + session.value.screenOn.message)
  {
    match adbFound {
      case Raised(m) =>
        status := Unavailable(false, StatusCheckFailed + m);
        return;
      case Returned(found) =>
        if !found {
          status := Unavailable(false, StatusAdbMissing);
          return;
        }
    }
    var devices: seq<string>;
    match listing {
      case Raised(m) =>
        status := Unavailable(true, StatusListingFailed + m);
        return;
      case Returned(stdout) =>
        devices := ListDevices(stdout);
    }
    status := DeviceStatus(true, devices, false, map[], false, None, false);
    if devices == [] {
      status := status.(error := Some(StatusNoDevices));
      return;
    }
    match ReadBasicInfo(session) {
      case Raised(m) =>
        status := status.(error := Some(StatusConnectionFailed + m));
      case Returned(deviceInfo) =>
        status := status.(deviceConnected := true);
        status := status.(deviceInfo := deviceInfo);
        match session.value.screenOn {
          case Raised(m) =>
            status := status.(error := Some(StatusConnectionFailed + m));
          case Returned(on) =>
            status := status.(screenOn := on);
            status := status.(readyForAutomation := true);
        }
    }
  }

  // ----------------------------------------- connect_device, get_device_info

  /** The dictionary `connect_device` and `get_device_info` return. */
  datatype DeviceReply = DeviceReply(
    success: bool,
    deviceInfo: map<string, Value>,
    error: Option<string>,
    deviceId: Option<string>)

  /** Every failure reply: the caller's `device_id` echoed, no device info. */
  function Failure(deviceId: Option<string>, error: string): (r: DeviceReply)
    ensures !r.success && r.deviceInfo == map[] && r.error == Some(error) && r.deviceId == deviceId
  {
    DeviceReply(false, map[], Some(error), deviceId)
  }

  /** `d.serial or device_id`: the empty serial is falsy. */
  function SerialOr(serial: string, deviceId: Option<string>): (r: Option<string>)
    ensures r == Some(serial) <==> serial != [] || deviceId == Some(serial)
    ensures serial == [] ==> r == deviceId
  {
    if serial != [] then Some(serial) else deviceId
  }

  /** The part of `connect_device` after the device check, up to its outer handler:
      `u2.connect(device_id)`, `d.info`, the normalisation and `d.serial`. */
  function ConnectSession(deviceId: Option<string>, session: Call<Device>): (r: Call<DeviceReply>)
    ensures r.Returned? <==>
      && session.Returned? && session.value.info.Returned?
      && ConnectInfo(session.value.info.value).Returned? && session.value.serial.Returned?
    ensures r.Returned? ==>
      && r.value.success && r.value.error == None
      && r.value.deviceInfo == ConnectInfo(session.value.info.value).value
      && r.value.deviceId == SerialOr(session.value.serial.value, deviceId)
  {
    var d :- session;
    var info :- d.info;
    var deviceInfo :- ConnectInfo(info);
    var serial :- d.serial;
    Returned(DeviceReply(true, deviceInfo, None, SerialOr(serial, deviceId)))
  }

  /** Whether the bridge checks of `connect_device` pass: adb is found, the listing
      succeeds and names at least one ready device. */
  predicate BridgeReady(adbFound: Call<bool>, listing: Call<string>) {
    adbFound == Returned(true) && listing.Returned? && ParsedDevices(listing.value) != []
  }

  /** `connect_device`. */
  method ConnectDevice(deviceId: Option<string>, adbFound: Call<bool>, listing: Call<string>, session: Call<Device>)
    returns (reply: DeviceReply)
    ensures reply.success <==> reply.error.None?
    ensures !reply.success ==> reply.deviceInfo == map[] && reply.deviceId == deviceId
    ensures adbFound.Raised? ==> reply == Failure(deviceId, ConnectFailed + adbFound.message)
    ensures adbFound == Returned(false) ==> reply == Failure(deviceId, ConnectAdbMissing)
    ensures adbFound == Returned(true) && listing.Raised? ==> reply == Failure(deviceId, ConnectListingFailed)
    ensures adbFound == Returned(true) && listing.Returned? && ParsedDevices(listing.value) == [] ==>
      reply == Failure(deviceId, ConnectNoDevices)
    ensures reply.success <==> BridgeReady(adbFound, listing) && ConnectSession(deviceId, session).Returned?
    ensures reply.success ==> reply == ConnectSession(deviceId, session).value
    ensures BridgeReady(adbFound, listing) && ConnectSession(deviceId, session).Raised? ==>
      reply == Failure(deviceId, ConnectFailed + ConnectSession(deviceId, session).message)
  {
    match adbFound {
      case Raised(m) =>
        return Failure(deviceId, ConnectFailed + m);
      case Returned(found) =>
        if !found {
          return Failure(deviceId, ConnectAdbMissing);
        }
    }
    match listing {
      case Raised(_) =>
        return Failure(deviceId, ConnectListingFailed);
      case Returned(stdout) =>
        var devices := ListDevices(stdout);
        if devices == [] {
          return Failure(deviceId, ConnectNoDevices);
        }
    }
    match ConnectSession(deviceId, session) {
      case Raised(m) =>
        reply := Failure(deviceId, ConnectFailed + m);
      case Returned(r) =>
        reply := r;
    }
  }

  /** `f"{w}x{h}"`: the two sizes in decimal around the one "x" of the text. */
  function Resolution(w: int, h: int): (r: string)
    ensures |r| == |Decimal(w)| + 1 + |Decimal(h)| && r[|Decimal(w)|] == 'x'
    ensures forall k :: 0 <= k < |Decimal(w)| ==> r[k] == Decimal(w)[k]
    ensures forall k :: 0 <= k < |Decimal(h)| ==> r[|Decimal(w)| + 1 + k] == Decimal(h)[k]
  {
    Decimal(w) + "x" + Decimal(h)
  }

  /** The resolution text splits at its only "x" back into the two sizes. */
  lemma ResolutionRoundTrip(w: nat, h: nat)
    ensures var s := Resolution(w, h); var n := |Digits(w)|;
      && n < |s| && s[n] == 'x' && 'x' !in s[..n] && 'x' !in s[n + 1..]
      && DigitsValue(s[..n]) == w && DigitsValue(s[n + 1..]) == h
  {
    var s := Resolution(w, h);
    var n := |Digits(w)|;
    assert s[..n] == Digits(w);
    assert s[n + 1..] == Digits(h);
    DigitsRoundTrip(w);
    DigitsRoundTrip(h);
  }

  /** The ten entries of `get_device_info`'s `device_info`, from the values read. */
  function DeviceEntries(info: map<string, Value>, serial: string, resolution: string, battery: Value, wifi: Value, screenOn: bool)
    : (m: map<string, Value>)
    requires !NotDict(info, "version")
    ensures m.Keys == DeviceInfoKeys
    ensures Holds(m, "serial", Str(serial))
    ensures Holds(m, "resolution", Str(resolution))
    ensures TakesNested(m, "version", info, "version", "release", Str(""))
    ensures TakesNested(m, "sdk", info, "version", "sdk", Int(0))
    ensures Holds(m, "battery", battery) && Holds(m, "wifi_ip", wifi)
    ensures TakesOrDefaults(m, "manufacturer", info, "manufacturer", Str(""))
    ensures TakesOrDefaults(m, "model", info, "model", Str(""))
    ensures Holds(m, "is_screen_on", Bool(screenOn))
    ensures TakesOrDefaults(m, "product", info, "productName", Str(""))
  {
    map[
      "serial" := Str(serial),
      "resolution" := Str(resolution),
      "version" := GetNested(info, "version", "release", Str("")).value,
      "sdk" := GetNested(info, "version", "sdk", Int(0)).value,
      "battery" := battery,
      "wifi_ip" := wifi,
      "manufacturer" := Get(info, "manufacturer", Str("")),
      "model" := Get(info, "model", Str("")),
      "is_screen_on" := Bool(screenOn),
      "product" := Get(info, "productName", Str(""))]
  }

  /** The part of `get_device_info` inside its handler: the reads happen in the order
      of the dictionary entries, and the first raise ends the call. */
  function DeviceInfoSession(deviceId: Option<string>, session: Call<Device>): (r: Call<DeviceReply>)
    ensures session.Raised? ==> r == Raised(session.message)
    ensures session.Returned? ==> var d := session.value;
      && (d.info.Raised? ==> r == Raised(d.info.message))
      && (d.info.Returned? && d.windowSize.Raised? ==> r == Raised(d.windowSize.message))
      && (d.info.Returned? && d.windowSize.Returned? && d.serial.Raised? ==> r == Raised(d.serial.message))
    ensures (session.Returned? && session.value.info.Returned? && session.value.windowSize.Returned? &&
             session.value.serial.Returned?) ==> var d := session.value;
      && (NotDict(d.info.value, "version") ==> r == Raised(NoAttribute(TypeName(d.info.value["version"]), "get")))
      && (!NotDict(d.info.value, "version") && d.batteryInfo.Raised? ==> r == Raised(d.batteryInfo.message))
      && (!NotDict(d.info.value, "version") && d.batteryInfo.Returned? && d.wlanIp.Raised? ==> r == Raised(d.wlanIp.message))
      && (!NotDict(d.info.value, "version") && d.batteryInfo.Returned? && d.wlanIp.Returned? && d.screenOn.Raised? ==>
            r == Raised(d.screenOn.message))
    ensures r.Returned? <==>
      session.Returned? && DeviceReadsComplete(session.value) && !NotDict(session.value.info.value, "version")
    ensures r.Returned? ==> var d := session.value;
      r.value == DeviceReply(true,
        DeviceEntries(d.info.value, d.serial.value, Resolution(d.windowSize.value.0, d.windowSize.value.1),
          d.batteryInfo.value, d.wlanIp.value, d.screenOn.value),
        None, SerialOr(d.serial.value, deviceId))
  {
    var d :- session;
    var info :- d.info;
    var size :- d.windowSize;
    var serial :- d.serial;
    var release :- GetNested(info, "version", "release", Str(""));
    var battery :- d.batteryInfo;
    var wifi :- d.wlanIp;
    var screenOn :- d.screenOn;
    Returned(DeviceReply(true, DeviceEntries(info, serial, Resolution(size.0, size.1), battery, wifi, screenOn), None, SerialOr(serial, deviceId)))
  }

  /** Every device read `get_device_info` makes completes. */
  predicate DeviceReadsComplete(d: Device) {
    d.info.Returned? && d.windowSize.Returned? && d.serial.Returned? &&
    d.batteryInfo.Returned? && d.wlanIp.Returned? && d.screenOn.Returned?
  }

  /** `get_device_info`. */
  function GetDeviceInfo(deviceId: Option<string>, session: Call<Device>): (r: DeviceReply)
    ensures r.success <==> r.error.None?
    ensures r.success <==>
      session.Returned? && DeviceReadsComplete(session.value) && !NotDict(session.value.info.value, "version")
    ensures !r.success ==> r.deviceInfo == map[] && r.deviceId == deviceId
    ensures !r.success ==> r.error == Some(InfoFailed + DeviceInfoSession(deviceId, session).message)
    ensures r.success ==>
      var d := session.value;
      && r.deviceInfo == DeviceEntries(d.info.value, d.serial.value, Resolution(d.windowSize.value.0, d.windowSize.value.1),
           d.batteryInfo.value, d.wlanIp.value, d.screenOn.value)
      && r.deviceId == SerialOr(d.serial.value, deviceId)
  {
    match DeviceInfoSession(deviceId, session)
    case Raised(m) => Failure(deviceId, InfoFailed + m)
    case Returned(reply) => reply
  }

  /** The keys `get_device_info` shares with `connect_device` hold the same values. */
  lemma DeviceInfoAgreesWithConnect(deviceId: Option<string>, session: Call<Device>)
    requires GetDeviceInfo(deviceId, session).success
    requires ConnectSession(deviceId, session).Returned?
    ensures var a := GetDeviceInfo(deviceId, session); var b := ConnectSession(deviceId, session).value;
      && a.deviceId == b.deviceId
      && forall k :: k in {"version", "sdk", "manufacturer", "model", "product"} ==> a.deviceInfo[k] == b.deviceInfo[k]
  {
  }

  // ------------------------------------------------ check_adb_and_list_devices

  /** The dictionary `check_adb_and_list_devices` returns. */
  datatype AdbReport = AdbReport(adbExists: bool, devices: seq<string>, error: Option<string>)

  /** `check_adb_and_list_devices`: the adb lookup is outside its handler, so a raise
      there leaves the call. */
  method CheckAdbAndListDevices(adbFound: Call<bool>, listing: Call<string>) returns (r: Call<AdbReport>)
    ensures adbFound.Raised? ==> r == Raised(adbFound.message)
    ensures adbFound == Returned(false) ==> r == Returned(AdbReport(false, [], Some(CheckAdbMissing)))
    ensures adbFound == Returned(true) && listing.Raised? ==> r == Returned(AdbReport(true, [], Some(listing.message)))
    ensures adbFound == Returned(true) && listing.Returned? ==>
      r == Returned(AdbReport(true, ParsedDevices(listing.value), None))
    ensures r.Returned? ==> (r.value.error.None? <==> adbFound == Returned(true) && listing.Returned?)
    ensures r.Returned? && r.value.error.Some? ==> r.value.devices == []
  {
    match adbFound {
      case Raised(m) =>
        return Raised(m);
      case Returned(found) =>
        if !found {
          return Returned(AdbReport(false, [], Some(CheckAdbMissing)));
        }
    }
    match listing {
      case Raised(m) =>
        r := Returned(AdbReport(true, [], Some(m)));
      case Returned(stdout) =>
        var devices := ListDevices(stdout);
        r := Returned(AdbReport(true, devices, None));
    }
  }
}
