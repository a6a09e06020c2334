/**
 * The pure part of `android.media.AudioSystem`: the stream, mode, device-state,
 * force-use and device code tables with their `*ToString` / `get*DeviceName`
 * renderings. Codes are Java `int`s (`int32`). The device codes and masks
 * are in `AudioDevices`.
 */
module AudioSystem {
  import opened Wrappers
  import Decimal
  import opened CodeNames

  type int32 = Decimal.int32

  // ---------------------------------------------------------------- streams

  const STREAM_DEFAULT: int32 := -1
  const STREAM_VOICE_CALL: int32 := 0
  const STREAM_SYSTEM: int32 := 1
  const STREAM_RING: int32 := 2
  const STREAM_MUSIC: int32 := 3
  const STREAM_ALARM: int32 := 4
  const STREAM_NOTIFICATION: int32 := 5
  const STREAM_BLUETOOTH_SCO: int32 := 6
  const STREAM_SYSTEM_ENFORCED: int32 := 7
  const STREAM_DTMF: int32 := 8
  const STREAM_TTS: int32 := 9
  const STREAM_ACCESSIBILITY: int32 := 10
  const NUM_STREAMS: int32 := 5
  const NUM_STREAM_TYPES: int32 := 11

  const STREAM_NAMES: seq<string> := [
    "STREAM_VOICE_CALL", "STREAM_SYSTEM", "STREAM_RING", "STREAM_MUSIC", "STREAM_ALARM",
    "STREAM_NOTIFICATION", "STREAM_BLUETOOTH_SCO", "STREAM_SYSTEM_ENFORCED", "STREAM_DTMF",
    "STREAM_TTS", "STREAM_ACCESSIBILITY"]

  const USE_DEFAULT_STREAM_TYPE_NAME := "USE_DEFAULT_STREAM_TYPE"
  const UNKNOWN_STREAM := Fallback("UNKNOWN_STREAM_", "")

  function GetNumStreamTypes(): (n: int32)
    ensures n == |STREAM_NAMES|
  {
    NUM_STREAM_TYPES
  }

  /** `STREAM_NAMES` has one entry per stream type, entry i naming the constant of value i. */
  lemma StreamNamesMatchConstants()
    ensures |STREAM_NAMES| == NUM_STREAM_TYPES
    ensures STREAM_NAMES[STREAM_VOICE_CALL] == "STREAM_VOICE_CALL"
    ensures STREAM_NAMES[STREAM_SYSTEM] == "STREAM_SYSTEM"
    ensures STREAM_NAMES[STREAM_RING] == "STREAM_RING"
    ensures STREAM_NAMES[STREAM_MUSIC] == "STREAM_MUSIC"
    ensures STREAM_NAMES[STREAM_ALARM] == "STREAM_ALARM"
    ensures STREAM_NAMES[STREAM_NOTIFICATION] == "STREAM_NOTIFICATION"
    ensures STREAM_NAMES[STREAM_BLUETOOTH_SCO] == "STREAM_BLUETOOTH_SCO"
    ensures STREAM_NAMES[STREAM_SYSTEM_ENFORCED] == "STREAM_SYSTEM_ENFORCED"
    ensures STREAM_NAMES[STREAM_DTMF] == "STREAM_DTMF"
    ensures STREAM_NAMES[STREAM_TTS] == "STREAM_TTS"
    ensures STREAM_NAMES[STREAM_ACCESSIBILITY] == "STREAM_ACCESSIBILITY"
  {
  }

  /**
   * `streamToString`. `useDefaultStreamType` is `AudioManager.USE_DEFAULT_STREAM_TYPE`,
   * a constant of another class, taken as a parameter.
   */
  function StreamToString(stream: int32, useDefaultStreamType: int32): (r: string)
    ensures r in STREAM_NAMES <==> 0 <= stream < NUM_STREAM_TYPES
    ensures !(0 <= stream < NUM_STREAM_TYPES) && stream != useDefaultStreamType ==>
              r == "UNKNOWN_STREAM_" + Decimal.ToString(stream)
    ensures !(0 <= stream < NUM_STREAM_TYPES) && stream == useDefaultStreamType ==> r == "USE_DEFAULT_STREAM_TYPE"
    ensures StreamFromString(r, useDefaultStreamType) == Some(stream)
  {
    if 0 <= stream < |STREAM_NAMES| then
      StreamNameIndex(stream);
      STREAM_NAMES[stream]
    else if stream == useDefaultStreamType then
      USE_DEFAULT_STREAM_TYPE_NAME
    else
      UnknownStreamText(stream);
      Format(UNKNOWN_STREAM, stream)
  }

  /** The fallback text is no stream name, is not the default-stream text, and reads back as its number. */
  lemma UnknownStreamText(stream: int)
    ensures Format(UNKNOWN_STREAM, stream) !in STREAM_NAMES
    ensures Format(UNKNOWN_STREAM, stream) != USE_DEFAULT_STREAM_TYPE_NAME
    ensures Unformat(UNKNOWN_STREAM, Format(UNKNOWN_STREAM, stream)) == Some(stream)
  {
    UnformatFormat(UNKNOWN_STREAM, stream);
    var s := Format(UNKNOWN_STREAM, stream);
    assert s[..15] == "UNKNOWN_STREAM_";
    assert s[0] == 'U' && s[1] == 'N' by {
      assert s[0] == s[..15][0] && s[1] == s[..15][1];
    }
    NotAStreamName(s);
  }

  /** Text starting "UN" is neither a stream name nor the default-stream text. */
  lemma NotAStreamName(s: string)
    requires |s| >= 2 && s[0] == 'U' && s[1] == 'N'
    ensures s !in STREAM_NAMES && s != USE_DEFAULT_STREAM_TYPE_NAME
  {
    assert USE_DEFAULT_STREAM_TYPE_NAME[1] == 'S';
    forall i | 0 <= i < |STREAM_NAMES| ensures STREAM_NAMES[i] != s {
      assert STREAM_NAMES[i][0] == 'S';
    }
  }

  /** Inverse of `StreamToString`. */
  function StreamFromString(s: string, useDefaultStreamType: int32): Option<int> {
    if s in STREAM_NAMES then Some(IndexOf(STREAM_NAMES, s))
    else if s == USE_DEFAULT_STREAM_TYPE_NAME then Some(useDefaultStreamType)
    else Unformat(UNKNOWN_STREAM, s)
  }

  function IndexOf(names: seq<string>, s: string): (i: nat)
    requires s in names
    ensures i < |names| && names[i] == s
    ensures forall j :: 0 <= j < i ==> names[j] != s
  {
    if names[0] == s then 0 else 1 + IndexOf(names[1..], s)
  }

  lemma StreamNameIndex(stream: nat)
    requires stream < |STREAM_NAMES|
    ensures IndexOf(STREAM_NAMES, STREAM_NAMES[stream]) == stream
  {
    StreamNamesDistinct();
  }

  lemma StreamNamesDistinct()
    ensures forall a, b :: 0 <= a < b < |STREAM_NAMES| ==> STREAM_NAMES[a] != STREAM_NAMES[b]
  {
  }

  // ---------------------------------------------------------------- modes

  const MODE_INVALID: int32 := -2
  const MODE_CURRENT: int32 := -1
  const MODE_NORMAL: int32 := 0
  const MODE_RINGTONE: int32 := 1
  const MODE_IN_CALL: int32 := 2
  const MODE_IN_COMMUNICATION: int32 := 3
  const NUM_MODES: int32 := 4

  /** The cases of `modeToString`, in source order. */
  const MODE_CASES: seq<Case> := [
    Case(MODE_CURRENT, "MODE_CURRENT"),
    Case(MODE_IN_CALL, "MODE_IN_CALL"),
    Case(MODE_IN_COMMUNICATION, "MODE_IN_COMMUNICATION"),
    Case(MODE_INVALID, "MODE_INVALID"),
    Case(MODE_NORMAL, "MODE_NORMAL"),
    Case(MODE_RINGTONE, "MODE_RINGTONE")]

  const UNKNOWN_MODE := Fallback("unknown mode (", ")")

  lemma ModeCasesWellFormed()
    ensures WellFormed(MODE_CASES, UNKNOWN_MODE)
    ensures forall m: int :: Listed(MODE_CASES, m) <==> MODE_INVALID <= m <= MODE_IN_COMMUNICATION
  {
    forall m: int | MODE_INVALID <= m <= MODE_IN_COMMUNICATION ensures Listed(MODE_CASES, m) {
      assert MODE_CASES[[3, 0, 4, 5, 1, 2][m + 2]].code == m;
    }
  }

  /** `modeToString`: the six mode constants by name, anything else as "unknown mode (n)". */
  function ModeToString(mode: int32): (r: string)
    ensures r in Names(MODE_CASES) <==> MODE_INVALID <= mode <= MODE_IN_COMMUNICATION
    ensures !(MODE_INVALID <= mode <= MODE_IN_COMMUNICATION) ==>
              r == "unknown mode (" + Decimal.ToString(mode) + ")"
    ensures Recover(MODE_CASES, UNKNOWN_MODE, r) == Some(mode)
  {
    ModeCasesWellFormed();
    RenderNamed(MODE_CASES, UNKNOWN_MODE, mode);
    RecoverRender(MODE_CASES, UNKNOWN_MODE, mode);
    Render(MODE_CASES, UNKNOWN_MODE, mode)
  }

  lemma ModeNames()
    ensures ModeToString(MODE_INVALID) == "MODE_INVALID"
    ensures ModeToString(MODE_CURRENT) == "MODE_CURRENT"
    ensures ModeToString(MODE_NORMAL) == "MODE_NORMAL"
    ensures ModeToString(MODE_RINGTONE) == "MODE_RINGTONE"
    ensures ModeToString(MODE_IN_CALL) == "MODE_IN_CALL"
    ensures ModeToString(MODE_IN_COMMUNICATION) == "MODE_IN_COMMUNICATION"
  {
    ModeCasesWellFormed();
    RenderListed(MODE_CASES, UNKNOWN_MODE, 0);
    RenderListed(MODE_CASES, UNKNOWN_MODE, 1);
    RenderListed(MODE_CASES, UNKNOWN_MODE, 2);
    RenderListed(MODE_CASES, UNKNOWN_MODE, 3);
    RenderListed(MODE_CASES, UNKNOWN_MODE, 4);
    RenderListed(MODE_CASES, UNKNOWN_MODE, 5);
  }

  // ---------------------------------------------------------------- device states

  const DEVICE_STATE_UNAVAILABLE: int32 := 0
  const DEVICE_STATE_AVAILABLE: int32 := 1
  const NUM_DEVICE_STATES: int32 := 1

  const DEVICE_STATE_CASES: seq<Case> := [
    Case(DEVICE_STATE_UNAVAILABLE, "DEVICE_STATE_UNAVAILABLE"),
    Case(DEVICE_STATE_AVAILABLE, "DEVICE_STATE_AVAILABLE")]

  const UNKNOWN_STATE := Fallback("unknown state (", ")")

  lemma DeviceStateCasesWellFormed()
    ensures WellFormed(DEVICE_STATE_CASES, UNKNOWN_STATE)
    ensures forall i :: 0 <= i < |DEVICE_STATE_CASES| ==> DEVICE_STATE_CASES[i].code == i
  {
    DeviceStateCodes();
    DeviceStateNames();
    ConsecutiveCodesDistinct(DEVICE_STATE_CASES, 0);
    forall i | 0 <= i < |DEVICE_STATE_CASES| ensures SetApart(UNKNOWN_STATE, DEVICE_STATE_CASES[i].name) {
    }
  }

  lemma DeviceStateCodes()
    ensures forall i :: 0 <= i < |DEVICE_STATE_CASES| ==> DEVICE_STATE_CASES[i].code == i
  {
  }

  lemma DeviceStateNames()
    ensures forall i, j :: 0 <= i < j < |DEVICE_STATE_CASES| ==> DEVICE_STATE_CASES[i].name != DEVICE_STATE_CASES[j].name
  {
  }

  /** `deviceStateToString`: names exactly 0 and 1. */
  function DeviceStateToString(state: int32): (r: string)
    ensures state == DEVICE_STATE_UNAVAILABLE ==> r == "DEVICE_STATE_UNAVAILABLE"
    ensures state == DEVICE_STATE_AVAILABLE ==> r == "DEVICE_STATE_AVAILABLE"
    ensures state != DEVICE_STATE_UNAVAILABLE && state != DEVICE_STATE_AVAILABLE ==>
              r == "unknown state (" + Decimal.ToString(state) + ")"
    ensures Recover(DEVICE_STATE_CASES, UNKNOWN_STATE, r) == Some(state)
  {
    DeviceStateCasesWellFormed();
    RenderConsecutive(DEVICE_STATE_CASES, UNKNOWN_STATE, 0, state);
    RecoverRender(DEVICE_STATE_CASES, UNKNOWN_STATE, state);
    Render(DEVICE_STATE_CASES, UNKNOWN_STATE, state)
  }

  // ---------------------------------------------------------------- forced routing

  const FORCE_NONE: int32 := 0
  const FORCE_SPEAKER: int32 := 1
  const FORCE_HEADPHONES: int32 := 2
  const FORCE_BT_SCO: int32 := 3
  const FORCE_BT_A2DP: int32 := 4
  const FORCE_WIRED_ACCESSORY: int32 := 5
  const FORCE_BT_CAR_DOCK: int32 := 6
  const FORCE_BT_DESK_DOCK: int32 := 7
  const FORCE_ANALOG_DOCK: int32 := 8
  const FORCE_DIGITAL_DOCK: int32 := 9
  const FORCE_NO_BT_A2DP: int32 := 10
  const FORCE_SYSTEM_ENFORCED: int32 := 11
  const FORCE_HDMI_SYSTEM_AUDIO_ENFORCED: int32 := 12
  const FORCE_ENCODED_SURROUND_NEVER: int32 := 13
  const FORCE_ENCODED_SURROUND_ALWAYS: int32 := 14
  const FORCE_ENCODED_SURROUND_MANUAL: int32 := 15
  const NUM_FORCE_CONFIG: int32 := 16
  const FORCE_DEFAULT: int32 := FORCE_NONE

  const FORCE_CONFIG_CASES: seq<Case> := [
    Case(FORCE_NONE, "FORCE_NONE"),
    Case(FORCE_SPEAKER, "FORCE_SPEAKER"),
    Case(FORCE_HEADPHONES, "FORCE_HEADPHONES"),
    Case(FORCE_BT_SCO, "FORCE_BT_SCO"),
    Case(FORCE_BT_A2DP, "FORCE_BT_A2DP"),
    Case(FORCE_WIRED_ACCESSORY, "FORCE_WIRED_ACCESSORY"),
    Case(FORCE_BT_CAR_DOCK, "FORCE_BT_CAR_DOCK"),
    Case(FORCE_BT_DESK_DOCK, "FORCE_BT_DESK_DOCK"),
    Case(FORCE_ANALOG_DOCK, "FORCE_ANALOG_DOCK"),
    Case(FORCE_DIGITAL_DOCK, "FORCE_DIGITAL_DOCK"),
    Case(FORCE_NO_BT_A2DP, "FORCE_NO_BT_A2DP"),
    Case(FORCE_SYSTEM_ENFORCED, "FORCE_SYSTEM_ENFORCED"),
    Case(FORCE_HDMI_SYSTEM_AUDIO_ENFORCED, "FORCE_HDMI_SYSTEM_AUDIO_ENFORCED"),
    Case(FORCE_ENCODED_SURROUND_NEVER, "FORCE_ENCODED_SURROUND_NEVER"),
    Case(FORCE_ENCODED_SURROUND_ALWAYS, "FORCE_ENCODED_SURROUND_ALWAYS"),
    Case(FORCE_ENCODED_SURROUND_MANUAL, "FORCE_ENCODED_SURROUND_MANUAL")]

  const UNKNOWN_CONFIG := Fallback("unknown config (", ")")

  lemma ForceConfigCasesWellFormed()
    ensures WellFormed(FORCE_CONFIG_CASES, UNKNOWN_CONFIG)
    ensures forall i :: 0 <= i < |FORCE_CONFIG_CASES| ==> FORCE_CONFIG_CASES[i].code == i
  {
    ForceConfigCodes();
    ForceConfigNames();
    ConsecutiveCodesDistinct(FORCE_CONFIG_CASES, 0);
    forall i | 0 <= i < |FORCE_CONFIG_CASES| ensures SetApart(UNKNOWN_CONFIG, FORCE_CONFIG_CASES[i].name) {
    }
  }

  lemma ForceConfigCodes()
    ensures forall i :: 0 <= i < |FORCE_CONFIG_CASES| ==> FORCE_CONFIG_CASES[i].code == i
  {
  }

  lemma ForceConfigNames()
    ensures forall i, j :: 0 <= i < j < |FORCE_CONFIG_CASES| ==> FORCE_CONFIG_CASES[i].name != FORCE_CONFIG_CASES[j].name
  {
  }

  /** `forceUseConfigToString`: names exactly 0 .. NUM_FORCE_CONFIG - 1. */
  function ForceUseConfigToString(config: int32): (r: string)
    ensures 0 <= config < NUM_FORCE_CONFIG ==> r == FORCE_CONFIG_CASES[config].name
    ensures !(0 <= config < NUM_FORCE_CONFIG) ==> r == "unknown config (" + Decimal.ToString(config) + ")"
    ensures Recover(FORCE_CONFIG_CASES, UNKNOWN_CONFIG, r) == Some(config)
  {
    ForceConfigCasesWellFormed();
    RenderConsecutive(FORCE_CONFIG_CASES, UNKNOWN_CONFIG, 0, config);
    RecoverRender(FORCE_CONFIG_CASES, UNKNOWN_CONFIG, config);
    Render(FORCE_CONFIG_CASES, UNKNOWN_CONFIG, config)
  }

  const FOR_COMMUNICATION: int32 := 0
  const FOR_MEDIA: int32 := 1
  const FOR_RECORD: int32 := 2
  const FOR_DOCK: int32 := 3
  const FOR_SYSTEM: int32 := 4
  const FOR_HDMI_SYSTEM_AUDIO: int32 := 5
  const FOR_ENCODED_SURROUND: int32 := 6
  const FOR_VIBRATE_RINGING: int32 := 7
  const NUM_FORCE_USE: int32 := 8

  const FORCE_USAGE_CASES: seq<Case> := [
    Case(FOR_COMMUNICATION, "FOR_COMMUNICATION"),
    Case(FOR_MEDIA, "FOR_MEDIA"),
    Case(FOR_RECORD, "FOR_RECORD"),
    Case(FOR_DOCK, "FOR_DOCK"),
    Case(FOR_SYSTEM, "FOR_SYSTEM"),
    Case(FOR_HDMI_SYSTEM_AUDIO, "FOR_HDMI_SYSTEM_AUDIO"),
    Case(FOR_ENCODED_SURROUND, "FOR_ENCODED_SURROUND"),
    Case(FOR_VIBRATE_RINGING, "FOR_VIBRATE_RINGING")]

  const UNKNOWN_USAGE := Fallback("unknown usage (", ")")

  lemma ForceUsageCasesWellFormed()
    ensures WellFormed(FORCE_USAGE_CASES, UNKNOWN_USAGE)
    ensures forall i :: 0 <= i < |FORCE_USAGE_CASES| ==> FORCE_USAGE_CASES[i].code == i
  {
    ForceUsageCodes();
    ForceUsageNames();
    ConsecutiveCodesDistinct(FORCE_USAGE_CASES, 0);
    forall i | 0 <= i < |FORCE_USAGE_CASES| ensures SetApart(UNKNOWN_USAGE, FORCE_USAGE_CASES[i].name) {
    }
  }

  lemma ForceUsageCodes()
    ensures forall i :: 0 <= i < |FORCE_USAGE_CASES| ==> FORCE_USAGE_CASES[i].code == i
  {
  }

  lemma ForceUsageNames()
    ensures forall i, j :: 0 <= i < j < |FORCE_USAGE_CASES| ==> FORCE_USAGE_CASES[i].name != FORCE_USAGE_CASES[j].name
  {
  }

  /** `forceUseUsageToString`: names exactly 0 .. NUM_FORCE_USE - 1. */
  function ForceUseUsageToString(usage: int32): (r: string)
    ensures 0 <= usage < NUM_FORCE_USE ==> r == FORCE_USAGE_CASES[usage].name
    ensures !(0 <= usage < NUM_FORCE_USE) ==> r == "unknown usage (" + Decimal.ToString(usage) + ")"
    ensures Recover(FORCE_USAGE_CASES, UNKNOWN_USAGE, r) == Some(usage)
  {
    ForceUsageCasesWellFormed();
    RenderConsecutive(FORCE_USAGE_CASES, UNKNOWN_USAGE, 0, usage);
    RecoverRender(FORCE_USAGE_CASES, UNKNOWN_USAGE, usage);
    Render(FORCE_USAGE_CASES, UNKNOWN_USAGE, usage)
  }

  /** The counts themselves fall to the "unknown" branch. */
  lemma ForceCountsAreUnknown()
    ensures ForceUseConfigToString(NUM_FORCE_CONFIG) == "unknown config (" + Decimal.ToString(16) + ")"
    ensures ForceUseUsageToString(NUM_FORCE_USE) == "unknown usage (" + Decimal.ToString(8) + ")"
    ensures FORCE_DEFAULT == FORCE_NONE
  {
  }

  // ---------------------------------------------------------------- settings

  /** `getValueForVibrateSetting`: in this build the setting is left as it was. */
  function GetValueForVibrateSetting(existingValue: int32, vibrateType: int32, vibrateSetting: int32): (r: int32)
    ensures r == existingValue
  {
    existingValue
  }

  const PLATFORM_DEFAULT: int32 := 0
  const PLATFORM_VOICE: int32 := 1
  const PLATFORM_TELEVISION: int32 := 2

  /** `getPlatformType`: always the default platform, whatever the context. */
  function GetPlatformType(): (t: int32)
    ensures t == PLATFORM_DEFAULT
  {
    0
  }

  /** `isSingleVolume`: only a television has a single volume, and this is never one. */
  function IsSingleVolume(): (single: bool)
    ensures !single
  {
    GetPlatformType() == PLATFORM_TELEVISION
  }

  /** One bit per stream type, bit s standing for stream s. */
  function StreamBit(stream: int32): bv32
    requires 0 <= stream < NUM_STREAM_TYPES
  {
    1 << stream
  }

  const DEFAULT_MUTE_STREAMS_AFFECTED: bv32 :=
    StreamBit(STREAM_MUSIC) | StreamBit(STREAM_RING) | StreamBit(STREAM_NOTIFICATION)
    | StreamBit(STREAM_SYSTEM) | StreamBit(STREAM_VOICE_CALL) | StreamBit(STREAM_BLUETOOTH_SCO)

  /** The streams muted by default are exactly voice call, system, ring, music, notification and Bluetooth SCO. */
  lemma DefaultMuteStreams(stream: int32)
    requires 0 <= stream < NUM_STREAM_TYPES
    ensures DEFAULT_MUTE_STREAMS_AFFECTED & StreamBit(stream) != 0 <==>
              stream in {STREAM_VOICE_CALL, STREAM_SYSTEM, STREAM_RING, STREAM_MUSIC,
                         STREAM_NOTIFICATION, STREAM_BLUETOOTH_SCO}
    ensures DEFAULT_MUTE_STREAMS_AFFECTED < 1 << NUM_STREAM_TYPES
  {
  }
}
