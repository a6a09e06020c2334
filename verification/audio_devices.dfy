/**
 * The device part of `android.media.AudioSystem`: the DEVICE_* constants and
 * masks, the device name strings, and `getOutputDeviceName` /
 * `getInputDeviceName`. Device constants are kept as the 32-bit patterns the
 * source builds with `|` (`bv32`); `JavaInt` reads such a pattern as the
 * signed `int` that Java compares in a `switch`.
 */
module AudioDevices {
  import opened Wrappers
  import Decimal
  import opened CodeNames

  type int32 = Decimal.int32

  /**
   * The signed value of a 32-bit pattern, as Java reads an `int` constant:
   * the two's-complement reading, which differs from the unsigned value by
   * 2^32 exactly when the top bit is set.
   */
  function JavaInt(bits: bv32): (n: int32)
    ensures n < 0 <==> bits >= 0x8000_0000
    ensures (if n < 0 then n + 0x1_0000_0000 else n) == bits as int
  {
    if bits < 0x8000_0000 then bits as int else (bits - 0x8000_0000) as int - 0x8000_0000
  }

  const DEVICE_NONE: bv32 := 0x0
  /** Set in every input device code: input codes are negative Java `int`s. */
  const DEVICE_BIT_IN: bv32 := 0x8000_0000
  const DEVICE_BIT_DEFAULT: bv32 := 0x4000_0000

  const DEVICE_OUT_EARPIECE: bv32 := 0x1
  const DEVICE_OUT_SPEAKER: bv32 := 0x2
  const DEVICE_OUT_WIRED_HEADSET: bv32 := 0x4
  const DEVICE_OUT_WIRED_HEADPHONE: bv32 := 0x8
  const DEVICE_OUT_BLUETOOTH_SCO: bv32 := 0x10
  const DEVICE_OUT_BLUETOOTH_SCO_HEADSET: bv32 := 0x20
  const DEVICE_OUT_BLUETOOTH_SCO_CARKIT: bv32 := 0x40
  const DEVICE_OUT_BLUETOOTH_A2DP: bv32 := 0x80
  const DEVICE_OUT_BLUETOOTH_A2DP_HEADPHONES: bv32 := 0x100
  const DEVICE_OUT_BLUETOOTH_A2DP_SPEAKER: bv32 := 0x200
  const DEVICE_OUT_AUX_DIGITAL: bv32 := 0x400
  const DEVICE_OUT_HDMI: bv32 := DEVICE_OUT_AUX_DIGITAL
  const DEVICE_OUT_ANLG_DOCK_HEADSET: bv32 := 0x800
  const DEVICE_OUT_DGTL_DOCK_HEADSET: bv32 := 0x1000
  const DEVICE_OUT_USB_ACCESSORY: bv32 := 0x2000
  const DEVICE_OUT_USB_DEVICE: bv32 := 0x4000
  const DEVICE_OUT_REMOTE_SUBMIX: bv32 := 0x8000
  const DEVICE_OUT_TELEPHONY_TX: bv32 := 0x10000
  const DEVICE_OUT_LINE: bv32 := 0x20000
  const DEVICE_OUT_HDMI_ARC: bv32 := 0x40000
  const DEVICE_OUT_SPDIF: bv32 := 0x80000
  const DEVICE_OUT_FM: bv32 := 0x100000
  const DEVICE_OUT_AUX_LINE: bv32 := 0x200000
  const DEVICE_OUT_SPEAKER_SAFE: bv32 := 0x400000
  const DEVICE_OUT_IP: bv32 := 0x800000
  const DEVICE_OUT_BUS: bv32 := 0x1000000
  const DEVICE_OUT_PROXY: bv32 := 0x2000000
  const DEVICE_OUT_USB_HEADSET: bv32 := 0x4000000
  const DEVICE_OUT_HEARING_AID: bv32 := 0x8000000
  const DEVICE_OUT_DEFAULT: bv32 := DEVICE_BIT_DEFAULT

  const DEVICE_OUT_ALL: bv32 :=
    DEVICE_OUT_EARPIECE
    | DEVICE_OUT_SPEAKER
    | DEVICE_OUT_WIRED_HEADSET
    | DEVICE_OUT_WIRED_HEADPHONE
    | DEVICE_OUT_BLUETOOTH_SCO
    | DEVICE_OUT_BLUETOOTH_SCO_HEADSET
    | DEVICE_OUT_BLUETOOTH_SCO_CARKIT
    | DEVICE_OUT_BLUETOOTH_A2DP
    | DEVICE_OUT_BLUETOOTH_A2DP_HEADPHONES
    | DEVICE_OUT_BLUETOOTH_A2DP_SPEAKER
    | DEVICE_OUT_HDMI
    | DEVICE_OUT_ANLG_DOCK_HEADSET
    | DEVICE_OUT_DGTL_DOCK_HEADSET
    | DEVICE_OUT_USB_ACCESSORY
    | DEVICE_OUT_USB_DEVICE
    | DEVICE_OUT_REMOTE_SUBMIX
    | DEVICE_OUT_TELEPHONY_TX
    | DEVICE_OUT_LINE
    | DEVICE_OUT_HDMI_ARC
    | DEVICE_OUT_SPDIF
    | DEVICE_OUT_FM
    | DEVICE_OUT_AUX_LINE
    | DEVICE_OUT_SPEAKER_SAFE
    | DEVICE_OUT_IP
    | DEVICE_OUT_BUS
    | DEVICE_OUT_PROXY
    | DEVICE_OUT_USB_HEADSET
    | DEVICE_OUT_HEARING_AID
    | DEVICE_OUT_DEFAULT
  const DEVICE_OUT_ALL_A2DP: bv32 :=
    DEVICE_OUT_BLUETOOTH_A2DP | DEVICE_OUT_BLUETOOTH_A2DP_HEADPHONES | DEVICE_OUT_BLUETOOTH_A2DP_SPEAKER
  const DEVICE_OUT_ALL_SCO: bv32 :=
    DEVICE_OUT_BLUETOOTH_SCO | DEVICE_OUT_BLUETOOTH_SCO_HEADSET | DEVICE_OUT_BLUETOOTH_SCO_CARKIT
  const DEVICE_OUT_ALL_USB: bv32 :=
    DEVICE_OUT_USB_ACCESSORY | DEVICE_OUT_USB_DEVICE | DEVICE_OUT_USB_HEADSET
  const DEVICE_OUT_ALL_HDMI_SYSTEM_AUDIO: bv32 :=
    DEVICE_OUT_AUX_LINE | DEVICE_OUT_HDMI_ARC | DEVICE_OUT_SPDIF
  const DEVICE_ALL_HDMI_SYSTEM_AUDIO_AND_SPEAKER: bv32 :=
    DEVICE_OUT_ALL_HDMI_SYSTEM_AUDIO | DEVICE_OUT_SPEAKER

  const DEVICE_IN_COMMUNICATION: bv32 := DEVICE_BIT_IN | 0x1
  const DEVICE_IN_AMBIENT: bv32 := DEVICE_BIT_IN | 0x2
  const DEVICE_IN_BUILTIN_MIC: bv32 := DEVICE_BIT_IN | 0x4
  const DEVICE_IN_BLUETOOTH_SCO_HEADSET: bv32 := DEVICE_BIT_IN | 0x8
  const DEVICE_IN_WIRED_HEADSET: bv32 := DEVICE_BIT_IN | 0x10
  const DEVICE_IN_AUX_DIGITAL: bv32 := DEVICE_BIT_IN | 0x20
  const DEVICE_IN_HDMI: bv32 := DEVICE_IN_AUX_DIGITAL
  const DEVICE_IN_VOICE_CALL: bv32 := DEVICE_BIT_IN | 0x40
  const DEVICE_IN_TELEPHONY_RX: bv32 := DEVICE_IN_VOICE_CALL
  const DEVICE_IN_BACK_MIC: bv32 := DEVICE_BIT_IN | 0x80
  const DEVICE_IN_REMOTE_SUBMIX: bv32 := DEVICE_BIT_IN | 0x100
  const DEVICE_IN_ANLG_DOCK_HEADSET: bv32 := DEVICE_BIT_IN | 0x200
  const DEVICE_IN_DGTL_DOCK_HEADSET: bv32 := DEVICE_BIT_IN | 0x400
  const DEVICE_IN_USB_ACCESSORY: bv32 := DEVICE_BIT_IN | 0x800
  const DEVICE_IN_USB_DEVICE: bv32 := DEVICE_BIT_IN | 0x1000
  const DEVICE_IN_FM_TUNER: bv32 := DEVICE_BIT_IN | 0x2000
  const DEVICE_IN_TV_TUNER: bv32 := DEVICE_BIT_IN | 0x4000
  const DEVICE_IN_LINE: bv32 := DEVICE_BIT_IN | 0x8000
  const DEVICE_IN_SPDIF: bv32 := DEVICE_BIT_IN | 0x10000
  const DEVICE_IN_BLUETOOTH_A2DP: bv32 := DEVICE_BIT_IN | 0x20000
  const DEVICE_IN_LOOPBACK: bv32 := DEVICE_BIT_IN | 0x40000
  const DEVICE_IN_IP: bv32 := DEVICE_BIT_IN | 0x80000
  const DEVICE_IN_BUS: bv32 := DEVICE_BIT_IN | 0x100000
  const DEVICE_IN_PROXY: bv32 := DEVICE_BIT_IN | 0x1000000
  const DEVICE_IN_USB_HEADSET: bv32 := DEVICE_BIT_IN | 0x2000000
  const DEVICE_IN_DEFAULT: bv32 := DEVICE_BIT_IN | DEVICE_BIT_DEFAULT

  const DEVICE_IN_ALL: bv32 :=
    DEVICE_IN_COMMUNICATION
    | DEVICE_IN_AMBIENT
    | DEVICE_IN_BUILTIN_MIC
    | DEVICE_IN_BLUETOOTH_SCO_HEADSET
    | DEVICE_IN_WIRED_HEADSET
    | DEVICE_IN_HDMI
    | DEVICE_IN_TELEPHONY_RX
    | DEVICE_IN_BACK_MIC
    | DEVICE_IN_REMOTE_SUBMIX
    | DEVICE_IN_ANLG_DOCK_HEADSET
    | DEVICE_IN_DGTL_DOCK_HEADSET
    | DEVICE_IN_USB_ACCESSORY
    | DEVICE_IN_USB_DEVICE
    | DEVICE_IN_FM_TUNER
    | DEVICE_IN_TV_TUNER
    | DEVICE_IN_LINE
    | DEVICE_IN_SPDIF
    | DEVICE_IN_BLUETOOTH_A2DP
    | DEVICE_IN_LOOPBACK
    | DEVICE_IN_IP
    | DEVICE_IN_BUS
    | DEVICE_IN_PROXY
    | DEVICE_IN_USB_HEADSET
    | DEVICE_IN_DEFAULT
  const DEVICE_IN_ALL_SCO: bv32 := DEVICE_IN_BLUETOOTH_SCO_HEADSET
  const DEVICE_IN_ALL_USB: bv32 :=
    DEVICE_IN_USB_ACCESSORY | DEVICE_IN_USB_DEVICE | DEVICE_IN_USB_HEADSET

  const DEVICE_OUT_EARPIECE_NAME := "earpiece"
  const DEVICE_OUT_SPEAKER_NAME := "speaker"
  const DEVICE_OUT_WIRED_HEADSET_NAME := "headset"
  const DEVICE_OUT_WIRED_HEADPHONE_NAME := "headphone"
  const DEVICE_OUT_BLUETOOTH_SCO_NAME := "bt_sco"
  const DEVICE_OUT_BLUETOOTH_SCO_HEADSET_NAME := "bt_sco_hs"
  const DEVICE_OUT_BLUETOOTH_SCO_CARKIT_NAME := "bt_sco_carkit"
  const DEVICE_OUT_BLUETOOTH_A2DP_NAME := "bt_a2dp"
  const DEVICE_OUT_BLUETOOTH_A2DP_HEADPHONES_NAME := "bt_a2dp_hp"
  const DEVICE_OUT_BLUETOOTH_A2DP_SPEAKER_NAME := "bt_a2dp_spk"
  const DEVICE_OUT_AUX_DIGITAL_NAME := "aux_digital"
  const DEVICE_OUT_HDMI_NAME := "hdmi"
  const DEVICE_OUT_ANLG_DOCK_HEADSET_NAME := "analog_dock"
  const DEVICE_OUT_DGTL_DOCK_HEADSET_NAME := "digital_dock"
  const DEVICE_OUT_USB_ACCESSORY_NAME := "usb_accessory"
  const DEVICE_OUT_USB_DEVICE_NAME := "usb_device"
  const DEVICE_OUT_REMOTE_SUBMIX_NAME := "remote_submix"
  const DEVICE_OUT_TELEPHONY_TX_NAME := "telephony_tx"
  const DEVICE_OUT_LINE_NAME := "line"
  const DEVICE_OUT_HDMI_ARC_NAME := "hmdi_arc"
  const DEVICE_OUT_SPDIF_NAME := "spdif"
  const DEVICE_OUT_FM_NAME := "fm_transmitter"
  const DEVICE_OUT_AUX_LINE_NAME := "aux_line"
  const DEVICE_OUT_SPEAKER_SAFE_NAME := "speaker_safe"
  const DEVICE_OUT_IP_NAME := "ip"
  const DEVICE_OUT_BUS_NAME := "bus"
  const DEVICE_OUT_PROXY_NAME := "proxy"
  const DEVICE_OUT_USB_HEADSET_NAME := "usb_headset"
  const DEVICE_OUT_HEARING_AID_NAME := "hearing_aid_out"

  const DEVICE_IN_COMMUNICATION_NAME := "communication"
  const DEVICE_IN_AMBIENT_NAME := "ambient"
  const DEVICE_IN_BUILTIN_MIC_NAME := "mic"
  const DEVICE_IN_BLUETOOTH_SCO_HEADSET_NAME := "bt_sco_hs"
  const DEVICE_IN_WIRED_HEADSET_NAME := "headset"
  const DEVICE_IN_AUX_DIGITAL_NAME := "aux_digital"
  const DEVICE_IN_TELEPHONY_RX_NAME := "telephony_rx"
  const DEVICE_IN_BACK_MIC_NAME := "back_mic"
  const DEVICE_IN_REMOTE_SUBMIX_NAME := "remote_submix"
  const DEVICE_IN_ANLG_DOCK_HEADSET_NAME := "analog_dock"
  const DEVICE_IN_DGTL_DOCK_HEADSET_NAME := "digital_dock"
  const DEVICE_IN_USB_ACCESSORY_NAME := "usb_accessory"
  const DEVICE_IN_USB_DEVICE_NAME := "usb_device"
  const DEVICE_IN_FM_TUNER_NAME := "fm_tuner"
  const DEVICE_IN_TV_TUNER_NAME := "tv_tuner"
  const DEVICE_IN_LINE_NAME := "line"
  const DEVICE_IN_SPDIF_NAME := "spdif"
  const DEVICE_IN_BLUETOOTH_A2DP_NAME := "bt_a2dp"
  const DEVICE_IN_LOOPBACK_NAME := "loopback"
  const DEVICE_IN_IP_NAME := "ip"
  const DEVICE_IN_BUS_NAME := "bus"
  const DEVICE_IN_PROXY_NAME := "proxy"
  const DEVICE_IN_USB_HEADSET_NAME := "usb_headset"

  /** A device constant and the name its `case` returns. */
  datatype Device = Device(bits: bv32, name: string)

  /** The cases of `getOutputDeviceName`, in source order (which is bit order). */
  const OUTPUT_DEVICES: seq<Device> := [
    Device(DEVICE_OUT_EARPIECE, DEVICE_OUT_EARPIECE_NAME),
    Device(DEVICE_OUT_SPEAKER, DEVICE_OUT_SPEAKER_NAME),
    Device(DEVICE_OUT_WIRED_HEADSET, DEVICE_OUT_WIRED_HEADSET_NAME),
    Device(DEVICE_OUT_WIRED_HEADPHONE, DEVICE_OUT_WIRED_HEADPHONE_NAME),
    Device(DEVICE_OUT_BLUETOOTH_SCO, DEVICE_OUT_BLUETOOTH_SCO_NAME),
    Device(DEVICE_OUT_BLUETOOTH_SCO_HEADSET, DEVICE_OUT_BLUETOOTH_SCO_HEADSET_NAME),
    Device(DEVICE_OUT_BLUETOOTH_SCO_CARKIT, DEVICE_OUT_BLUETOOTH_SCO_CARKIT_NAME),
    Device(DEVICE_OUT_BLUETOOTH_A2DP, DEVICE_OUT_BLUETOOTH_A2DP_NAME),
    Device(DEVICE_OUT_BLUETOOTH_A2DP_HEADPHONES, DEVICE_OUT_BLUETOOTH_A2DP_HEADPHONES_NAME),
    Device(DEVICE_OUT_BLUETOOTH_A2DP_SPEAKER, DEVICE_OUT_BLUETOOTH_A2DP_SPEAKER_NAME),
    Device(DEVICE_OUT_HDMI, DEVICE_OUT_HDMI_NAME),
    Device(DEVICE_OUT_ANLG_DOCK_HEADSET, DEVICE_OUT_ANLG_DOCK_HEADSET_NAME),
    Device(DEVICE_OUT_DGTL_DOCK_HEADSET, DEVICE_OUT_DGTL_DOCK_HEADSET_NAME),
    Device(DEVICE_OUT_USB_ACCESSORY, DEVICE_OUT_USB_ACCESSORY_NAME),
    Device(DEVICE_OUT_USB_DEVICE, DEVICE_OUT_USB_DEVICE_NAME),
    Device(DEVICE_OUT_REMOTE_SUBMIX, DEVICE_OUT_REMOTE_SUBMIX_NAME),
    Device(DEVICE_OUT_TELEPHONY_TX, DEVICE_OUT_TELEPHONY_TX_NAME),
    Device(DEVICE_OUT_LINE, DEVICE_OUT_LINE_NAME),
    Device(DEVICE_OUT_HDMI_ARC, DEVICE_OUT_HDMI_ARC_NAME),
    Device(DEVICE_OUT_SPDIF, DEVICE_OUT_SPDIF_NAME),
    Device(DEVICE_OUT_FM, DEVICE_OUT_FM_NAME),
    Device(DEVICE_OUT_AUX_LINE, DEVICE_OUT_AUX_LINE_NAME),
    Device(DEVICE_OUT_SPEAKER_SAFE, DEVICE_OUT_SPEAKER_SAFE_NAME),
    Device(DEVICE_OUT_IP, DEVICE_OUT_IP_NAME),
    Device(DEVICE_OUT_BUS, DEVICE_OUT_BUS_NAME),
    Device(DEVICE_OUT_PROXY, DEVICE_OUT_PROXY_NAME),
    Device(DEVICE_OUT_USB_HEADSET, DEVICE_OUT_USB_HEADSET_NAME),
    Device(DEVICE_OUT_HEARING_AID, DEVICE_OUT_HEARING_AID_NAME)]

  /** The cases of `getInputDeviceName`, in source order (which is bit order). */
  const INPUT_DEVICES: seq<Device> := [
    Device(DEVICE_IN_COMMUNICATION, DEVICE_IN_COMMUNICATION_NAME),
    Device(DEVICE_IN_AMBIENT, DEVICE_IN_AMBIENT_NAME),
    Device(DEVICE_IN_BUILTIN_MIC, DEVICE_IN_BUILTIN_MIC_NAME),
    Device(DEVICE_IN_BLUETOOTH_SCO_HEADSET, DEVICE_IN_BLUETOOTH_SCO_HEADSET_NAME),
    Device(DEVICE_IN_WIRED_HEADSET, DEVICE_IN_WIRED_HEADSET_NAME),
    Device(DEVICE_IN_AUX_DIGITAL, DEVICE_IN_AUX_DIGITAL_NAME),
    Device(DEVICE_IN_TELEPHONY_RX, DEVICE_IN_TELEPHONY_RX_NAME),
    Device(DEVICE_IN_BACK_MIC, DEVICE_IN_BACK_MIC_NAME),
    Device(DEVICE_IN_REMOTE_SUBMIX, DEVICE_IN_REMOTE_SUBMIX_NAME),
    Device(DEVICE_IN_ANLG_DOCK_HEADSET, DEVICE_IN_ANLG_DOCK_HEADSET_NAME),
    Device(DEVICE_IN_DGTL_DOCK_HEADSET, DEVICE_IN_DGTL_DOCK_HEADSET_NAME),
    Device(DEVICE_IN_USB_ACCESSORY, DEVICE_IN_USB_ACCESSORY_NAME),
    Device(DEVICE_IN_USB_DEVICE, DEVICE_IN_USB_DEVICE_NAME),
    Device(DEVICE_IN_FM_TUNER, DEVICE_IN_FM_TUNER_NAME),
    Device(DEVICE_IN_TV_TUNER, DEVICE_IN_TV_TUNER_NAME),
    Device(DEVICE_IN_LINE, DEVICE_IN_LINE_NAME),
    Device(DEVICE_IN_SPDIF, DEVICE_IN_SPDIF_NAME),
    Device(DEVICE_IN_BLUETOOTH_A2DP, DEVICE_IN_BLUETOOTH_A2DP_NAME),
    Device(DEVICE_IN_LOOPBACK, DEVICE_IN_LOOPBACK_NAME),
    Device(DEVICE_IN_IP, DEVICE_IN_IP_NAME),
    Device(DEVICE_IN_BUS, DEVICE_IN_BUS_NAME),
    Device(DEVICE_IN_PROXY, DEVICE_IN_PROXY_NAME),
    Device(DEVICE_IN_USB_HEADSET, DEVICE_IN_USB_HEADSET_NAME)]

  /** The switch cases of a device table: each constant as the `int` Java compares. */
  function DeviceCases(devices: seq<Device>): (table: seq<Case>)
    ensures |table| == |devices|
    ensures forall i :: 0 <= i < |devices| ==> table[i] == Case(JavaInt(devices[i].bits), devices[i].name)
  {
    if |devices| == 0 then []
    else [Case(JavaInt(devices[0].bits), devices[0].name)] + DeviceCases(devices[1..])
  }

  /** `Integer.toString(device)`: no prefix, no suffix. */
  const NUMERAL := Fallback("", "")

  /** `device` is the Java value of one of the constants in `devices`. */
  predicate IsDevice(devices: seq<Device>, device: int32) {
    exists i :: 0 <= i < |devices| && device == JavaInt(devices[i].bits)
  }

  predicate IsOutputDevice(device: int32) {
    IsDevice(OUTPUT_DEVICES, device)
  }

  predicate IsInputDevice(device: int32) {
    IsDevice(INPUT_DEVICES, device)
  }

  /** The 28 output devices are the single bits 0 .. 27, in order. */
  lemma OutputDeviceBits()
    ensures |OUTPUT_DEVICES| == 28
    ensures forall i :: 0 <= i < |OUTPUT_DEVICES| ==> OUTPUT_DEVICES[i].bits == 1 << i
  {
    OutputDeviceBits0();
    OutputDeviceBits1();
    OutputDeviceBits2();
    OutputDeviceBits3();
  }

  // The facts about the constant tables are split into fixed blocks of
  // indices (the numbered lemmas below). Each block is a finite case check
  // the solver does on its own; one quantifier over a whole table makes the
  // solver expand every entry at once and is far more expensive.

  lemma OutputDeviceBits0()
    ensures forall i :: 0 <= i < 7 ==> OUTPUT_DEVICES[i].bits == 1 << i
  {
  }

  lemma OutputDeviceBits1()
    ensures forall i :: 7 <= i < 14 ==> OUTPUT_DEVICES[i].bits == 1 << i
  {
  }

  lemma OutputDeviceBits2()
    ensures forall i :: 14 <= i < 21 ==> OUTPUT_DEVICES[i].bits == 1 << i
  {
  }

  lemma OutputDeviceBits3()
    ensures forall i :: 21 <= i < 28 ==> OUTPUT_DEVICES[i].bits == 1 << i
  {
  }

  /** Bit position of the i-th input device below DEVICE_BIT_IN: 0 .. 20, then 24 and 25. */
  function InputBitPosition(i: nat): nat {
    if i < 21 then i else i + 3
  }

  /** The 23 input devices are DEVICE_BIT_IN plus one distinct low bit each, in order. */
  lemma InputDeviceBits()
    ensures |INPUT_DEVICES| == 23
    ensures forall i :: 0 <= i < |INPUT_DEVICES| ==> INPUT_DEVICES[i].bits == DEVICE_BIT_IN | (1 << InputBitPosition(i))
  {
    InputDeviceBits0();
    InputDeviceBits1();
    InputDeviceBits2();
    InputDeviceBits3();
  }

  // Fixed index blocks, split for solver cost as explained above `OutputDeviceBits0`.
  lemma InputDeviceBits0()
    ensures forall i :: 0 <= i < 6 ==> INPUT_DEVICES[i].bits == DEVICE_BIT_IN | (1 << InputBitPosition(i))
  {
  }

  lemma InputDeviceBits1()
    ensures forall i :: 6 <= i < 12 ==> INPUT_DEVICES[i].bits == DEVICE_BIT_IN | (1 << InputBitPosition(i))
  {
  }

  lemma InputDeviceBits2()
    ensures forall i :: 12 <= i < 18 ==> INPUT_DEVICES[i].bits == DEVICE_BIT_IN | (1 << InputBitPosition(i))
  {
  }

  lemma InputDeviceBits3()
    ensures forall i :: 18 <= i < 23 ==> INPUT_DEVICES[i].bits == DEVICE_BIT_IN | (1 << InputBitPosition(i))
  {
  }

  lemma SingleBitsDistinct(i: nat, j: nat)
    requires i < j < 31
    ensures (1 as bv32) << i != (1 as bv32) << j
    ensures DEVICE_BIT_IN | ((1 as bv32) << i) != DEVICE_BIT_IN | ((1 as bv32) << j)
  {
  }

  lemma JavaIntInjective(a: bv32, b: bv32)
    requires JavaInt(a) == JavaInt(b)
    ensures a == b
  {
    if a < 0x8000_0000 {
      BitsToIntInjective(a, b);
    } else {
      BitsToIntInjective(a - 0x8000_0000, b - 0x8000_0000);
    }
  }

  lemma BitsToIntInjective(a: bv32, b: bv32)
    requires a as int == b as int
    ensures a == b
  {
    assert (a as int) as bv32 == a;
    assert (b as int) as bv32 == b;
  }

  /** Distinct device patterns give distinct `case` labels. */
  lemma DeviceCodesDistinct(devices: seq<Device>)
    requires forall i, j :: 0 <= i < j < |devices| ==> devices[i].bits != devices[j].bits
    ensures CodesDistinct(DeviceCases(devices))
  {
    var table := DeviceCases(devices);
    forall i, j | 0 <= i < j < |table| ensures table[i].code != table[j].code {
      if table[i].code == table[j].code {
        JavaIntInjective(devices[i].bits, devices[j].bits);
      }
    }
  }

  lemma OutputNamesDistinct()
    ensures forall i, j :: 0 <= i < j < |OUTPUT_DEVICES| ==> OUTPUT_DEVICES[i].name != OUTPUT_DEVICES[j].name
  {
    OutputNamesDistinct00();
    OutputNamesDistinct01();
    OutputNamesDistinct02();
    OutputNamesDistinct03();
    OutputNamesDistinct11();
    OutputNamesDistinct12();
    OutputNamesDistinct13();
    OutputNamesDistinct22();
    OutputNamesDistinct23();
    OutputNamesDistinct33();
  }

  // Fixed index blocks, split for solver cost as explained above `OutputDeviceBits0`.
  lemma OutputNamesDistinct00()
    ensures forall i, j :: 0 <= i < j < 7 ==> OUTPUT_DEVICES[i].name != OUTPUT_DEVICES[j].name
  {
  }

  lemma OutputNamesDistinct01()
    ensures forall i, j :: 0 <= i < 7 && 7 <= j < 14 ==> OUTPUT_DEVICES[i].name != OUTPUT_DEVICES[j].name
  {
  }

  lemma OutputNamesDistinct02()
    ensures forall i, j :: 0 <= i < 7 && 14 <= j < 21 ==> OUTPUT_DEVICES[i].name != OUTPUT_DEVICES[j].name
  {
  }

  lemma OutputNamesDistinct03()
    ensures forall i, j :: 0 <= i < 7 && 21 <= j < 28 ==> OUTPUT_DEVICES[i].name != OUTPUT_DEVICES[j].name
  {
  }

  lemma OutputNamesDistinct11()
    ensures forall i, j :: 7 <= i < j < 14 ==> OUTPUT_DEVICES[i].name != OUTPUT_DEVICES[j].name
  {
  }

  lemma OutputNamesDistinct12()
    ensures forall i, j :: 7 <= i < 14 && 14 <= j < 21 ==> OUTPUT_DEVICES[i].name != OUTPUT_DEVICES[j].name
  {
  }

  lemma OutputNamesDistinct13()
    ensures forall i, j :: 7 <= i < 14 && 21 <= j < 28 ==> OUTPUT_DEVICES[i].name != OUTPUT_DEVICES[j].name
  {
  }

  lemma OutputNamesDistinct22()
    ensures forall i, j :: 14 <= i < j < 21 ==> OUTPUT_DEVICES[i].name != OUTPUT_DEVICES[j].name
  {
  }

  lemma OutputNamesDistinct23()
    ensures forall i, j :: 14 <= i < 21 && 21 <= j < 28 ==> OUTPUT_DEVICES[i].name != OUTPUT_DEVICES[j].name
  {
  }

  lemma OutputNamesDistinct33()
    ensures forall i, j :: 21 <= i < j < 28 ==> OUTPUT_DEVICES[i].name != OUTPUT_DEVICES[j].name
  {
  }

  lemma OutputNamesStartLower()
    ensures forall i :: 0 <= i < |OUTPUT_DEVICES| ==> |OUTPUT_DEVICES[i].name| > 0 && 'a' <= OUTPUT_DEVICES[i].name[0] <= 'z'
  {
    OutputNamesStartLowerBelow14();
    assert forall i :: 14 <= i < 28 ==> |OUTPUT_DEVICES[i].name| > 0 && 'a' <= OUTPUT_DEVICES[i].name[0] <= 'z';
  }

  // The first half of `OutputNamesStartLower`, split off for solver cost.
  lemma OutputNamesStartLowerBelow14()
    ensures forall i :: 0 <= i < 14 ==> |OUTPUT_DEVICES[i].name| > 0 && 'a' <= OUTPUT_DEVICES[i].name[0] <= 'z'
  {
  }

  lemma InputNamesDistinct()
    ensures forall i, j :: 0 <= i < j < |INPUT_DEVICES| ==> INPUT_DEVICES[i].name != INPUT_DEVICES[j].name
  {
    InputNamesDistinct00();
    InputNamesDistinct01();
    InputNamesDistinct02();
    InputNamesDistinct03();
    InputNamesDistinct11();
    InputNamesDistinct12();
    InputNamesDistinct13();
    InputNamesDistinct22();
    InputNamesDistinct23();
    InputNamesDistinct33();
  }

  // Fixed index blocks, split for solver cost as explained above `OutputDeviceBits0`.
  lemma InputNamesDistinct00()
    ensures forall i, j :: 0 <= i < j < 6 ==> INPUT_DEVICES[i].name != INPUT_DEVICES[j].name
  {
  }

  lemma InputNamesDistinct01()
    ensures forall i, j :: 0 <= i < 6 && 6 <= j < 12 ==> INPUT_DEVICES[i].name != INPUT_DEVICES[j].name
  {
  }

  lemma InputNamesDistinct02()
    ensures forall i, j :: 0 <= i < 6 && 12 <= j < 18 ==> INPUT_DEVICES[i].name != INPUT_DEVICES[j].name
  {
  }

  lemma InputNamesDistinct03()
    ensures forall i, j :: 0 <= i < 6 && 18 <= j < 23 ==> INPUT_DEVICES[i].name != INPUT_DEVICES[j].name
  {
  }

  lemma InputNamesDistinct11()
    ensures forall i, j :: 6 <= i < j < 12 ==> INPUT_DEVICES[i].name != INPUT_DEVICES[j].name
  {
  }

  lemma InputNamesDistinct12()
    ensures forall i, j :: 6 <= i < 12 && 12 <= j < 18 ==> INPUT_DEVICES[i].name != INPUT_DEVICES[j].name
  {
  }

  lemma InputNamesDistinct13()
    ensures forall i, j :: 6 <= i < 12 && 18 <= j < 23 ==> INPUT_DEVICES[i].name != INPUT_DEVICES[j].name
  {
  }

  lemma InputNamesDistinct22()
    ensures forall i, j :: 12 <= i < j < 18 ==> INPUT_DEVICES[i].name != INPUT_DEVICES[j].name
  {
  }

  lemma InputNamesDistinct23()
    ensures forall i, j :: 12 <= i < 18 && 18 <= j < 23 ==> INPUT_DEVICES[i].name != INPUT_DEVICES[j].name
  {
  }

  lemma InputNamesDistinct33()
    ensures forall i, j :: 18 <= i < j < 23 ==> INPUT_DEVICES[i].name != INPUT_DEVICES[j].name
  {
  }

  lemma InputNamesStartLower()
    ensures forall i :: 0 <= i < |INPUT_DEVICES| ==> |INPUT_DEVICES[i].name| > 0 && 'a' <= INPUT_DEVICES[i].name[0] <= 'z'
  {
  }

  /** A device table with distinct patterns and distinct lower-case names is a well-formed switch. */
  lemma DeviceCasesWellFormed(devices: seq<Device>)
    requires forall i, j :: 0 <= i < j < |devices| ==> devices[i].bits != devices[j].bits
    requires forall i, j :: 0 <= i < j < |devices| ==> devices[i].name != devices[j].name
    requires forall i :: 0 <= i < |devices| ==> |devices[i].name| > 0 && 'a' <= devices[i].name[0] <= 'z'
    ensures WellFormed(DeviceCases(devices), NUMERAL)
    ensures forall d: int32 :: IsDevice(devices, d) <==> Listed(DeviceCases(devices), d)
  {
    DeviceCodesDistinct(devices);
    DeviceNamesApart(devices);
    DeviceCasesListed(devices);
  }

  /** Distinct lower-case device names give a table whose names are distinct and set apart from numerals. */
  lemma DeviceNamesApart(devices: seq<Device>)
    requires forall i, j :: 0 <= i < j < |devices| ==> devices[i].name != devices[j].name
    requires forall i :: 0 <= i < |devices| ==> |devices[i].name| > 0 && 'a' <= devices[i].name[0] <= 'z'
    ensures NamesDistinct(DeviceCases(devices))
    ensures forall i :: 0 <= i < |DeviceCases(devices)| ==> SetApart(NUMERAL, DeviceCases(devices)[i].name)
  {
    var table := DeviceCases(devices);
    forall i | 0 <= i < |table| ensures SetApart(NUMERAL, table[i].name) {
      assert table[i].name == devices[i].name;
    }
  }

  /** The codes of a device table are exactly the Java values of its constants. */
  lemma DeviceCasesListed(devices: seq<Device>)
    ensures forall d: int32 :: IsDevice(devices, d) <==> Listed(DeviceCases(devices), d)
  {
    var table := DeviceCases(devices);
    forall d: int32 | Listed(table, d) ensures IsDevice(devices, d) {
      var i :| 0 <= i < |table| && table[i].code == d;
      assert d == JavaInt(devices[i].bits);
    }
    forall d: int32 | IsDevice(devices, d) ensures Listed(table, d) {
      var i :| 0 <= i < |devices| && d == JavaInt(devices[i].bits);
      assert table[i].code == d;
    }
  }

  /** The output names are pairwise distinct and none can be read as a numeral. */
  lemma OutputCasesWellFormed()
    ensures WellFormed(DeviceCases(OUTPUT_DEVICES), NUMERAL)
    ensures forall d: int32 :: IsOutputDevice(d) <==> Listed(DeviceCases(OUTPUT_DEVICES), d)
  {
    OutputDeviceBits();
    forall i, j | 0 <= i < j < |OUTPUT_DEVICES| ensures OUTPUT_DEVICES[i].bits != OUTPUT_DEVICES[j].bits {
      SingleBitsDistinct(i, j);
    }
    OutputNamesDistinct();
    OutputNamesStartLower();
    DeviceCasesWellFormed(OUTPUT_DEVICES);
  }

  /** The input names are pairwise distinct and none can be read as a numeral. */
  lemma InputCasesWellFormed()
    ensures WellFormed(DeviceCases(INPUT_DEVICES), NUMERAL)
    ensures forall d: int32 :: IsInputDevice(d) <==> Listed(DeviceCases(INPUT_DEVICES), d)
  {
    InputDeviceBits();
    forall i, j | 0 <= i < j < |INPUT_DEVICES| ensures INPUT_DEVICES[i].bits != INPUT_DEVICES[j].bits {
      SingleBitsDistinct(InputBitPosition(i), InputBitPosition(j));
    }
    InputNamesDistinct();
    InputNamesStartLower();
    DeviceCasesWellFormed(INPUT_DEVICES);
  }

  /**
   * `getOutputDeviceName`: every output device constant by its name (0x400 as
   * "hdmi"), anything else, DEVICE_OUT_DEFAULT included, as `Integer.toString`.
   */
  function OutputDeviceName(device: int32): (r: string)
    ensures IsOutputDevice(device) ==> r in Names(DeviceCases(OUTPUT_DEVICES))
    ensures !IsOutputDevice(device) ==> r == Decimal.ToString(device)
    ensures Decimal.IsNumeral(r) <==> !IsOutputDevice(device)
    ensures Recover(DeviceCases(OUTPUT_DEVICES), NUMERAL, r) == Some(device)
  {
    var table := DeviceCases(OUTPUT_DEVICES);
    OutputCasesWellFormed();
    RenderNamed(table, NUMERAL, device);
    RecoverRender(table, NUMERAL, device);
    NamedNotNumeral(table, Render(table, NUMERAL, device));
    Render(table, NUMERAL, device)
  }

  /**
   * `getInputDeviceName`: every input device constant by its name (the aliases
   * DEVICE_IN_HDMI and DEVICE_IN_TELEPHONY_RX included), anything else,
   * DEVICE_IN_DEFAULT included, as `Integer.toString`.
   */
  function InputDeviceName(device: int32): (r: string)
    ensures IsInputDevice(device) ==> r in Names(DeviceCases(INPUT_DEVICES))
    ensures !IsInputDevice(device) ==> r == Decimal.ToString(device)
    ensures Decimal.IsNumeral(r) <==> !IsInputDevice(device)
    ensures Recover(DeviceCases(INPUT_DEVICES), NUMERAL, r) == Some(device)
  {
    var table := DeviceCases(INPUT_DEVICES);
    InputCasesWellFormed();
    RenderNamed(table, NUMERAL, device);
    RecoverRender(table, NUMERAL, device);
    NamedNotNumeral(table, Render(table, NUMERAL, device));
    Render(table, NUMERAL, device)
  }

  /** A name set apart from the numerals is not one. */
  lemma NamedNotNumeral(table: seq<Case>, s: string)
    requires forall i :: 0 <= i < |table| ==> SetApart(NUMERAL, table[i].name)
    ensures s in Names(table) ==> !Decimal.IsNumeral(s)
  {
    if s in Names(table) {
      var i :| 0 <= i < |table| && table[i].name == s;
      assert SetApart(NUMERAL, s);
    }
  }

  /** 0x400 is DEVICE_OUT_HDMI and DEVICE_OUT_AUX_DIGITAL at once, and is named "hdmi". */
  lemma OutputHdmiName()
    ensures DEVICE_OUT_HDMI == DEVICE_OUT_AUX_DIGITAL == 0x400
    ensures OutputDeviceName(JavaInt(DEVICE_OUT_HDMI)) == "hdmi"
  {
    OutputCasesWellFormed();
    var table := DeviceCases(OUTPUT_DEVICES);
    assert table[10] == Case(JavaInt(DEVICE_OUT_HDMI), DEVICE_OUT_HDMI_NAME);
    RenderListed(table, NUMERAL, 10);
  }

  lemma AuxDigitalNotAnOutputName()
    ensures forall i :: 0 <= i < |OUTPUT_DEVICES| ==> OUTPUT_DEVICES[i].name != DEVICE_OUT_AUX_DIGITAL_NAME
  {
  }

  /** No output device, whatever its code, is ever named "aux_digital". */
  lemma OutputNeverAuxDigital(device: int32)
    ensures OutputDeviceName(device) != DEVICE_OUT_AUX_DIGITAL_NAME
  {
    var table := DeviceCases(OUTPUT_DEVICES);
    if OutputDeviceName(device) == DEVICE_OUT_AUX_DIGITAL_NAME {
      assert !Decimal.IsNumeral(DEVICE_OUT_AUX_DIGITAL_NAME) by {
        assert !Decimal.IsDigit(DEVICE_OUT_AUX_DIGITAL_NAME[0]);
      }
      var i :| 0 <= i < |table| && table[i].name == DEVICE_OUT_AUX_DIGITAL_NAME;
      AuxDigitalNotAnOutputName();
    }
  }

  /** Every bit of `mask` is also set in `all`. */
  predicate SubsetOf(mask: bv32, all: bv32) {
    mask & all == mask
  }

  /** Each output device lies within DEVICE_OUT_ALL and does not carry DEVICE_BIT_IN. */
  lemma OutputDeviceMasks(i: nat)
    requires i < |OUTPUT_DEVICES|
    ensures OUTPUT_DEVICES[i].bits & DEVICE_BIT_IN == 0
    ensures SubsetOf(OUTPUT_DEVICES[i].bits, DEVICE_OUT_ALL)
  {
    OutputDeviceBits();
  }

  /** The output group masks lie within DEVICE_OUT_ALL, which does not carry DEVICE_BIT_IN. */
  lemma OutputGroupMasks()
    ensures SubsetOf(DEVICE_OUT_DEFAULT, DEVICE_OUT_ALL)
    ensures SubsetOf(DEVICE_OUT_ALL_A2DP, DEVICE_OUT_ALL)
    ensures SubsetOf(DEVICE_OUT_ALL_SCO, DEVICE_OUT_ALL)
    ensures SubsetOf(DEVICE_OUT_ALL_USB, DEVICE_OUT_ALL)
    ensures SubsetOf(DEVICE_OUT_ALL_HDMI_SYSTEM_AUDIO, DEVICE_OUT_ALL)
    ensures SubsetOf(DEVICE_ALL_HDMI_SYSTEM_AUDIO_AND_SPEAKER, DEVICE_OUT_ALL)
    ensures DEVICE_OUT_ALL & DEVICE_BIT_IN == 0
  {
  }

  /** Each input device carries DEVICE_BIT_IN and lies within DEVICE_IN_ALL. */
  lemma InputDeviceMasks(i: nat)
    requires i < |INPUT_DEVICES|
    ensures INPUT_DEVICES[i].bits & DEVICE_BIT_IN == DEVICE_BIT_IN
    ensures SubsetOf(INPUT_DEVICES[i].bits, DEVICE_IN_ALL)
  {
    InputDeviceBits();
  }

  /** DEVICE_IN_DEFAULT carries DEVICE_BIT_IN too; the input group masks lie within DEVICE_IN_ALL. */
  lemma InputGroupMasks()
    ensures DEVICE_IN_DEFAULT & DEVICE_BIT_IN == DEVICE_BIT_IN
    ensures SubsetOf(DEVICE_IN_DEFAULT, DEVICE_IN_ALL)
    ensures SubsetOf(DEVICE_IN_ALL_SCO, DEVICE_IN_ALL)
    ensures SubsetOf(DEVICE_IN_ALL_USB, DEVICE_IN_ALL)
  {
  }

  /** DEVICE_BIT_IN is the sign bit: a pattern carries it exactly when Java reads it as negative. */
  lemma InBitIsSign(bits: bv32)
    ensures bits & DEVICE_BIT_IN == DEVICE_BIT_IN <==> JavaInt(bits) < 0
  {
  }

  /** Hence every input device code is a negative Java `int`, and every output device code a positive one. */
  lemma DeviceCodeSigns()
    ensures forall i :: 0 <= i < |INPUT_DEVICES| ==> JavaInt(INPUT_DEVICES[i].bits) < 0
    ensures forall i :: 0 <= i < |OUTPUT_DEVICES| ==> JavaInt(OUTPUT_DEVICES[i].bits) > 0
  {
    OutputDeviceBits();
    forall i | 0 <= i < |INPUT_DEVICES| ensures JavaInt(INPUT_DEVICES[i].bits) < 0 {
      InputDeviceMasks(i);
      InBitIsSign(INPUT_DEVICES[i].bits);
    }
    forall i | 0 <= i < |OUTPUT_DEVICES| ensures JavaInt(OUTPUT_DEVICES[i].bits) > 0 {
      SingleBitPositive(i);
    }
  }

  lemma SingleBitPositive(i: nat)
    requires i < 31
    ensures JavaInt((1 as bv32) << i) > 0
  {
    assert 0 < (1 as bv32) << i < 0x8000_0000;
    if ((1 as bv32) << i) as int == 0 {
      BitsToIntInjective((1 as bv32) << i, 0);
    }
  }

  /** Output bit i (i < 28) is named by the i-th case. */
  lemma OutputDeviceNamed(i: nat)
    requires i < 28
    ensures OutputDeviceName(JavaInt((1 as bv32) << i)) == OUTPUT_DEVICES[i].name
  {
    OutputDeviceBits();
    OutputCasesWellFormed();
    RenderListed(DeviceCases(OUTPUT_DEVICES), NUMERAL, i);
  }

  /** Input case i is named by its own name. */
  lemma InputDeviceNamed(i: nat)
    requires i < |INPUT_DEVICES|
    ensures InputDeviceName(JavaInt(INPUT_DEVICES[i].bits)) == INPUT_DEVICES[i].name
  {
    InputCasesWellFormed();
    RenderListed(DeviceCases(INPUT_DEVICES), NUMERAL, i);
  }

  /** The aliased input constants render under the names of their cases. */
  lemma InputAliasNames()
    ensures DEVICE_IN_HDMI == DEVICE_IN_AUX_DIGITAL && DEVICE_IN_TELEPHONY_RX == DEVICE_IN_VOICE_CALL
    ensures InputDeviceName(JavaInt(DEVICE_IN_HDMI)) == "aux_digital"
    ensures InputDeviceName(JavaInt(DEVICE_IN_TELEPHONY_RX)) == "telephony_rx"
  {
    InputDeviceBits();
    assert INPUT_DEVICES[5] == Device(DEVICE_IN_HDMI, "aux_digital");
    assert INPUT_DEVICES[6] == Device(DEVICE_IN_TELEPHONY_RX, "telephony_rx");
    InputDeviceNamed(5);
    InputDeviceNamed(6);
  }

  /** The DEFAULT devices have no case of their own and print as signed decimals. */
  lemma DefaultDevicesUnnamed()
    ensures OutputDeviceName(JavaInt(DEVICE_OUT_DEFAULT)) == Decimal.ToString(0x4000_0000)
    ensures InputDeviceName(JavaInt(DEVICE_IN_DEFAULT)) == Decimal.ToString(-0x4000_0000)
    ensures InputDeviceName(JavaInt(DEVICE_IN_DEFAULT))[0] == '-'
  {
    OutputDeviceBits();
    InputDeviceBits();
    assert JavaInt(DEVICE_OUT_DEFAULT) == 0x4000_0000;
    assert JavaInt(DEVICE_IN_DEFAULT) == -0x4000_0000;
    forall i | 0 <= i < |OUTPUT_DEVICES| ensures OUTPUT_DEVICES[i].bits != DEVICE_OUT_DEFAULT {
    }
    forall i | 0 <= i < |INPUT_DEVICES| ensures INPUT_DEVICES[i].bits != DEVICE_IN_DEFAULT {
    }
    assert !IsOutputDevice(0x4000_0000) by {
      if IsOutputDevice(0x4000_0000) {
        var i :| 0 <= i < |OUTPUT_DEVICES| && 0x4000_0000 == JavaInt(OUTPUT_DEVICES[i].bits);
        JavaIntInjective(OUTPUT_DEVICES[i].bits, DEVICE_OUT_DEFAULT);
      }
    }
    assert !IsInputDevice(-0x4000_0000) by {
      if IsInputDevice(-0x4000_0000) {
        var i :| 0 <= i < |INPUT_DEVICES| && -0x4000_0000 == JavaInt(INPUT_DEVICES[i].bits);
        JavaIntInjective(INPUT_DEVICES[i].bits, DEVICE_IN_DEFAULT);
      }
    }
  }
}
