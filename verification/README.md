# Monkey-Repl core in Dafny

This project models two files of the Monkey-Repl command-line tool.

- `android/media/AudioSystem.java`: the stream, mode, device-state and
  force-use name tables, the device bit constants and their masks, the two
  device-name lookups, and the settings stubs. The mode, device-state and
  force-use `*ToString` functions and the two `get*DeviceName` functions are
  switches over constants with a formatted fallback. The model writes each
  one as a table of `(code, name)` cases (module `CodeNames`) with a fallback
  prefix and suffix around Java's `Integer.toString` (module `Decimal`); the
  partner of each such rendering is its inverse, `Recover`. `streamToString`
  is instead a range test that indexes `STREAM_NAMES`, then a test for the
  default stream type, then a fallback; its inverse is
  `AudioSystem.StreamFromString`. Every name function is proved to
  round-trip, which makes it injective: no listed name collides with another
  or with a fallback string.
- `com/android/commands/monkey/Monkey.java`: the orchestration in `run`,
  `getSystemInterfaces` and `runMonkeyCycles` (module `Monkey`) and the
  `ActivityController` callbacks (module `ActivityController`). Every platform
  collaborator is an input. `Platform` records what each lookup and
  registration call does, the finite script of events the event source yields
  with each injection's outcome, and the outcome of the final restore and
  deregistration calls. A run produces the trace of calls and log lines in
  program order, plus its completion: a return value or a thrown `Raised`.
  Java's `try`/`finally` is modelled explicitly. A throw from the restore
  replaces whatever the cycles ended with.

Device codes are `bv32` values, as the source builds them from hexadecimal
literals and `|`.
`AudioDevices.JavaInt` turns them into the signed 32-bit `int` a Java `switch`
compares against. The `DEVICE_IN_*` codes, whose top bit is set, are therefore
negative.

## Model

| member | source | states |
|---|---|---|
| Decimal.ToString | android/media/AudioSystem.java:462 | `Integer.toString`: a numeral, with a leading '-' exactly for negative values |
| Decimal.ParseToString | android/media/AudioSystem.java:462 | reading the decimal text back gives the number again, so distinct ints print differently |
| Decimal.DigitsValueOfDigits | android/media/AudioSystem.java:462 | the digit string of a natural number has that number as its value |
| Decimal.Parse | android/media/AudioSystem.java:462 | exactly the numerals (optional minus, at least one digit) parse |
| CodeNames.Find | android/media/AudioSystem.java:47-64 | a switch lookup finds a name exactly when some case carries the code, and the name found is that case's |
| CodeNames.FindName | android/media/AudioSystem.java:47-64 | the reverse lookup fails exactly for strings that are no case's name |
| CodeNames.Render | android/media/AudioSystem.java:48-63 | the switch returns the name of a case carrying the code, or the `default:` text when no case carries it |
| CodeNames.Format | android/media/AudioSystem.java:62 | the `default:` text is the prefix, the decimal numeral of the code and the suffix (the same shape at lines 290, 524 and 557) |
| CodeNames.RenderListed | android/media/AudioSystem.java:47-64 | with distinct codes, a listed code renders as its own case's name |
| CodeNames.RenderUnlisted | android/media/AudioSystem.java:61 | an unlisted code falls through to `prefix + code + suffix` |
| CodeNames.RenderNamed | android/media/AudioSystem.java:47-64 | in a well-formed table the result is a case name if and only if the code is listed |
| CodeNames.RecoverRender | android/media/AudioSystem.java:47-64 | every rendered string recovers its code, so no name collides with another name or with a fallback string |
| CodeNames.RenderInjective | android/media/AudioSystem.java:47-64 | distinct codes render to distinct strings |
| CodeNames.UnformatFormat | android/media/AudioSystem.java:61 | the fallback text `prefix + code + suffix` gives the code back |
| CodeNames.RenderConsecutive | android/media/AudioSystem.java:489-526 | a table whose codes run base, base+1, … renders code c as case c-base inside the range and as the fallback outside it |
| AudioSystem.GetNumStreamTypes | android/media/AudioSystem.java:25-29 | the number of stream types equals the number of stream names |
| AudioSystem.StreamNamesMatchConstants | android/media/AudioSystem.java:11-33 | `STREAM_NAMES[STREAM_X]` is "STREAM_X" for each of the eleven stream constants |
| AudioSystem.StreamToString | android/media/AudioSystem.java:634-640 | the result is a stream name exactly for 0..10; outside that range it is "USE_DEFAULT_STREAM_TYPE" for the default stream type and "UNKNOWN_STREAM_" + n otherwise; it always reads back as the stream |
| AudioSystem.StreamNamesDistinct | android/media/AudioSystem.java:31-33 | the eleven stream names are pairwise distinct |
| AudioSystem.ModeCasesWellFormed | android/media/AudioSystem.java:39-64 | the mode switch has distinct codes and names, none shaped like its fallback, and lists exactly the modes -2..3 |
| AudioSystem.ModeToString | android/media/AudioSystem.java:47-64 | the result is a mode name exactly for -2..3, "unknown mode (n)" otherwise, and it always recovers the mode |
| AudioSystem.ModeNames | android/media/AudioSystem.java:39-59 | each MODE_X constant renders as "MODE_X" |
| AudioSystem.DeviceStateCasesWellFormed | android/media/AudioSystem.java:279-292 | the device-state switch is well formed, and its codes are 0 and 1 in order |
| AudioSystem.DeviceStateToString | android/media/AudioSystem.java:283-292 | 0 and 1 name the two states, anything else is "unknown state (n)", and the text recovers the state |
| AudioSystem.ForceConfigCasesWellFormed | android/media/AudioSystem.java:470-526 | the sixteen force configurations have codes 0..15 in order and distinct names apart from the fallback |
| AudioSystem.ForceUseConfigToString | android/media/AudioSystem.java:489-526 | a configuration 0..15 renders as its case name, anything else as "unknown config (n)", and the text recovers the configuration |
| AudioSystem.ForceUsageCasesWellFormed | android/media/AudioSystem.java:528-559 | the eight usages have codes 0..7 in order and distinct names apart from the fallback |
| AudioSystem.ForceUseUsageToString | android/media/AudioSystem.java:538-559 | a usage 0..7 renders as its case name, anything else as "unknown usage (n)", and the text recovers the usage |
| AudioSystem.ForceCountsAreUnknown | android/media/AudioSystem.java:486-487 | the counts NUM_FORCE_CONFIG (line 486) and NUM_FORCE_USE (declared at line 536) are not themselves listed, and FORCE_DEFAULT is FORCE_NONE |
| AudioSystem.GetValueForVibrateSetting | android/media/AudioSystem.java:629-632 | the vibrate type and setting never change the value: the existing value comes back |
| AudioSystem.GetPlatformType | android/media/AudioSystem.java:646-649 | every context is the default platform |
| AudioSystem.IsSingleVolume | android/media/AudioSystem.java:651-654 | since the platform is never a television, volume is never single |
| AudioSystem.DefaultMuteStreams | android/media/AudioSystem.java:656-658 | the default mute mask has a stream's bit set exactly for voice call, system, ring, music, notification and Bluetooth SCO, and no bit beyond the eleven streams |
| AudioDevices.JavaInt | android/media/AudioSystem.java:188-190 | a 32-bit pattern read as a Java int is its two's-complement value: negative exactly when the top bit (DEVICE_BIT_IN) is set, and then 2^32 below the unsigned value |
| AudioDevices.OutputDeviceBits | android/media/AudioSystem.java:191-219 | the 28 output device cases, in switch order, are the single bits 1 << 0 … 1 << 27 |
| AudioDevices.InputDeviceBits | android/media/AudioSystem.java:242-266 | each input device case is DEVICE_BIT_IN plus one single bit |
| AudioDevices.OutputNamesDistinct | android/media/AudioSystem.java:294-322 | the output device names are pairwise distinct |
| AudioDevices.InputNamesDistinct | android/media/AudioSystem.java:324-346 | the input device names are pairwise distinct |
| AudioDevices.OutputCasesWellFormed | android/media/AudioSystem.java:348-410 | the output switch has distinct codes and names, none of which is a numeral, and lists exactly the output devices |
| AudioDevices.InputCasesWellFormed | android/media/AudioSystem.java:412-464 | the input switch has distinct codes and names, none of which is a numeral, and lists exactly the input devices |
| AudioDevices.OutputDeviceName | android/media/AudioSystem.java:348-410 | an output device gets its name; any other int, DEVICE_OUT_DEFAULT included, gets `Integer.toString`; the result is a numeral exactly in the second case and always recovers the code |
| AudioDevices.InputDeviceName | android/media/AudioSystem.java:412-464 | the same for input devices, DEVICE_IN_DEFAULT falling through to its negative decimal |
| AudioDevices.OutputHdmiName | android/media/AudioSystem.java:202 | DEVICE_OUT_HDMI and DEVICE_OUT_AUX_DIGITAL are both 0x400, and 0x400 is named "hdmi" |
| AudioDevices.OutputNeverAuxDigital | android/media/AudioSystem.java:304 | no int is ever named "aux_digital" by the output lookup |
| AudioDevices.InputAliasNames | android/media/AudioSystem.java:248-250 | the aliases DEVICE_IN_HDMI and DEVICE_IN_TELEPHONY_RX render as "aux_digital" and "telephony_rx" |
| AudioDevices.DefaultDevicesUnnamed | android/media/AudioSystem.java:406-408 | DEVICE_OUT_DEFAULT prints as 1073741824 and DEVICE_IN_DEFAULT as the negative decimal -1073741824 |
| AudioDevices.OutputDeviceNamed | android/media/AudioSystem.java:348-410 | output bit i is named by the i-th output case |
| AudioDevices.InputDeviceNamed | android/media/AudioSystem.java:412-464 | each input case's code is named by that case |
| AudioDevices.OutputDeviceMasks | android/media/AudioSystem.java:223-230 | every output device lies inside DEVICE_OUT_ALL and has no DEVICE_BIT_IN |
| AudioDevices.OutputGroupMasks | android/media/AudioSystem.java:221-240 | the A2DP, SCO, USB and HDMI-system-audio groups and DEVICE_OUT_DEFAULT are subsets of DEVICE_OUT_ALL, which has no input bit |
| AudioDevices.InputDeviceMasks | android/media/AudioSystem.java:269-274 | every input device carries DEVICE_BIT_IN and lies inside DEVICE_IN_ALL |
| AudioDevices.InputGroupMasks | android/media/AudioSystem.java:267-277 | DEVICE_IN_DEFAULT and the SCO and USB input groups are subsets of DEVICE_IN_ALL |
| AudioDevices.DeviceCases | android/media/AudioSystem.java:349-409 | the device switch has one case per device constant, in order, labelled with the constant's Java int value and returning its name |
| AudioDevices.InBitIsSign | android/media/AudioSystem.java:188-190 | a pattern carries DEVICE_BIT_IN exactly when Java reads it as a negative int |
| AudioDevices.DeviceCodeSigns | android/media/AudioSystem.java:189-266 | as Java ints, every input device code is negative and every output device code positive |
| Monkey.GetSystemInterfaces | com/android/commands/monkey/Monkey.java:148-180 | returns false exactly when a handle is missing; returns true exactly when all three handles are found and one registration form completes; otherwise it rethrows the one-argument form's throw |
| Monkey.AcquireTrace | com/android/commands/monkey/Monkey.java:148-180 | acquisition happens in source order: activity manager, its fallback, window manager, package manager, then the two registration forms |
| Monkey.AcquireCalls | com/android/commands/monkey/Monkey.java:156-177 | an error is logged exactly when a handle is missing; a missing handle stops all later lookups; the two-argument registration is attempted exactly when all handles are found, and the one-argument form only after it throws |
| Monkey.Handled | com/android/commands/monkey/Monkey.java:191-205 | the pulls the loop gets through form the longest prefix of injected events whose injection returned a code |
| Monkey.Loop | com/android/commands/monkey/Monkey.java:191-205 | the loop performs only pulls, injections and injection log lines; it ends normally exactly at the end of the script or a null event, and otherwise with the throw of the pull or injection that ended it |
| Monkey.LoopMeasures | com/android/commands/monkey/Monkey.java:191-205 | the loop pulls once per handled event plus once more, and injects exactly the events it reaches, in script order |
| Monkey.CodeLog | com/android/commands/monkey/Monkey.java:195-201 | a successful injection logs nothing; a failure code logs exactly one line, and that line reports the same code back |
| Monkey.LoopFailureLines | com/android/commands/monkey/Monkey.java:195-201 | the "Injection Failed" line is logged once per handled INJECT_FAIL, the RemoteException error once per INJECT_ERROR_REMOTE_EXCEPTION, and the SecurityException error once per INJECT_ERROR_SECURITY_EXCEPTION |
| Monkey.RunMonkeyCycles | com/android/commands/monkey/Monkey.java:189-210 | a RuntimeException from the loop is logged and swallowed; any other throw escapes; the result is 0 |
| Monkey.RunMonkey | com/android/commands/monkey/Monkey.java:122-141 | `run` returns only 0 or -3, and returns -3 exactly when a system handle is missing |
| Monkey.RunWithoutHandles | com/android/commands/monkey/Monkey.java:122-125 | without all handles, nothing but acquisition happens: no registration, no event source, no injection, no restore; an error is logged |
| Monkey.RunRestoresOnce | com/android/commands/monkey/Monkey.java:130-138 | once started, the rotation is restored exactly once, after every injection, and only one deregistration may follow it |
| Monkey.RunCompletion | com/android/commands/monkey/Monkey.java:122-141 | deregistration happens exactly when the session started, the restore completed and the cycles did not throw a non-runtime error; 0 is returned exactly when the deregistration also completes; a throwing restore decides the outcome; the runtime error line appears exactly when the loop threw a RuntimeException |
| Monkey.RunInjections | com/android/commands/monkey/Monkey.java:127-136 | a started session injects exactly the events the loop reaches, in order, with one more pull than handled events |
| Monkey.ThreeEventsScenario | com/android/commands/monkey/Monkey.java:122-141 | three good events then the end of the stream: exit 0, the three events injected, one restore, one deregistration |
| Monkey.RemoteErrorScenario | com/android/commands/monkey/Monkey.java:191-201 | a remote error on the second event is logged and the third event is still pulled and injected |
| ActivityController.Escape | com/android/commands/monkey/Monkey.java:81 | after replacing "\n" with "\n// ", every newline in the text is followed by a comment marker |
| ActivityController.UnescapeEscape | com/android/commands/monkey/Monkey.java:81 | the replacement loses nothing: removing the markers gives the stack trace back |
| ActivityController.CommentBlock | com/android/commands/monkey/Monkey.java:81 | the printed stack trace starts with "// " and every line of it is commented |
| ActivityController.UncommentCommentBlock | com/android/commands/monkey/Monkey.java:81 | the stack trace can be read back from its commented form |
| ActivityController.CrashReport | com/android/commands/monkey/Monkey.java:72-84 | a crash prints seven lines on the error stream, each starting with "// ", and the last one holds the whole stack trace |
| ActivityController.Handle | com/android/commands/monkey/Monkey.java:55-107 | only activityStarting changes the current intent; only activityStarting and activityResuming change the current package; only the start, resume and crash callbacks answer with a boolean |
| ActivityController.AnswerIgnoresArguments | com/android/commands/monkey/Monkey.java:55-107 | the answer depends on which callback runs, never on its arguments, the session or the build |
| ActivityController.Answers | com/android/commands/monkey/Monkey.java:57-106 | a crash is always vetoed; starts and resumes are always allowed; an early not-responding report gets 0; not-responding and watchdog reports get -1 |
| ActivityController.ErrorStreamUse | com/android/commands/monkey/Monkey.java:72-106 | exactly the crash, not-responding and watchdog callbacks log on the error stream |
| ActivityController.HandleAllSnoc | com/android/commands/monkey/Monkey.java:57-70 | running one more callback after a run of callbacks is handling it in the session the run left |
| ActivityController.HandleAllSession | com/android/commands/monkey/Monkey.java:47-70 | after any run of callbacks, the current package is the one of the last start or resume and the current intent the one of the last start; with neither, the session is unchanged |

## Left out

- Native methods of `AudioSystem` (`muteMicrophone`, `setParameters`, `getForceUse`, volume and latency queries and the rest): their bodies are platform code outside this file.
- The error, dynamic-policy and recording callback plumbing of `AudioSystem` (lines 94-177): this is callback registration and dispatch to foreign code.
- Constants with no operation over them: `ROUTE_*`, the status codes, `PHONE_STATE_*`, `SYNC_EVENT_*`, `AUDIO_HW_SYNC_INVALID`, `PLAY_SOUND_DELAY`, `IN_VOICE_COMM_FOCUS_ID` and `NATIVE_EVENT_ROUTING_CHANGE`.
- The value of `AudioManager.USE_DEFAULT_STREAM_TYPE`: that class is not part of this model, so `StreamToString` takes the value as a parameter.
- AudioSystem.GetPlatformType and AudioSystem.IsSingleVolume: the `Context` parameter is dropped, because the source never reads it.
- `printHelp` and `main`, including the Base64 help text and `System.exit`: they are fixed output and process exit.
- The text of each log line in `Monkey`: the model records which line is logged, not the text. `Logger` and the `StrictMode` thread-policy calls are left out.
- `MonkeySourceShell`, `MonkeyEvent.injectEvent` and `MonkeyRotationEvent`: these classes are not part of this model. They appear only as the outcomes recorded in `Platform`.
- Monkey.GetSystemInterfaces: `ActivityManagerNative.getDefault`, `ServiceManager.getService`, the constructor of the event source and `printHelp` are taken never to throw. Only `ActivityManager.getService` and the registration calls may throw.
- Monkey.Loop: the event source is a finite script. Reading past its end yields `null`, so an endless event source is not modelled.
- Concurrency is not modelled. The callbacks run while the loop runs, and the source writes the two static session fields one after the other without a lock. The model applies each callback as one atomic step.
- ActivityController.CrashReport: a `null` stack trace, which makes the source throw a NullPointerException at line 81, is not modelled. Only the package argument is nullable in the model; the other string arguments are not.
- `android/annotation/SdkConstant.java` and `android/view/ViewManager.java` are not part of this model. They declare an annotation and an interface with no behaviour here.

Behaviour of the code a reader might not expect:
- The controller is deregistered after the `finally` block, not inside it. If the restore throws, or the cycles throw something other than a `RuntimeException`, deregistration is skipped (Monkey.RunCompletion).
- `runMonkeyCycles` swallows a `RuntimeException` and `run` still returns 0. A runtime fault does not change the exit status.
- The result of the rotation-restore injection is ignored, not logged.
- When both forms of `setActivityController` throw, the throw propagates out of `run`. No negative status is returned.
