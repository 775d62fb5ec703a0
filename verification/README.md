# nik-bot firmware core in Dafny

A model of the logic in the nik-bot robot firmware (an Arduino Uno-class board).
It covers four parts:

- the WiFi bridge to the ESP32-CAM module (`WifiBridge`). This includes the line
  reader `readLine`, the token search `waitForResponse`, the connection flag and
  the guarded commands.
- the H-bridge logic of one DC motor (`Motor`).
- the four-wheel drive built from four motors (`MotorController`).
- the RGB status light (`RgbLed`).

Hardware effects become state:

- A pin write sets the pin's `Level`: `Low`, `High` or `Pwm(duty)`.
- Writing a command line to the serial channel appends it to the bridge's `sent` list.
- The characters that arrive on the channel before a timeout form a finite
  `seq<char>`. Reaching the end of that sequence stands for the timeout
  expiring.

Modules:

| file | module | models |
|---|---|---|
| `cstrings.dfy` | `CStrings` | C strings: what a NUL-terminated buffer holds, `strstr` as `Occurs`, `snprintf` truncation |
| `line_reader.dfy` | `LineReader` | `readLine`, as a recursive function over the stream and as the buffer-writing loop |
| `wifi.dfy` | `Wifi` | the bridge state machine, `sendCommand`, `waitForResponse`, `connect`, `disconnect`, `getIpAddress`, `httpGet`, `httpPost` |
| `motor.dfy` | `Motors` | `Motor` |
| `robot_drive.dfy` | `RobotDrive` | `MotorController` and its `MotorPair`s |
| `rgb_led.dfy` | `Rgb` | `RgbLed` |

`readLine` has two descriptions:

- `IsLineRead` is relational. It states which prefix of the input is consumed and
  what is stored, without saying how the reader walks the input.
  `IsLineReadUnique` proves that this fixes the result.
- `Scan`/`ReadLine` is the stream-level function. It is proved to satisfy `IsLineRead`.

`ReadLineIntoBuffer` is the loop as the source writes it, storing into the
caller's buffer. Without a serial channel it returns false at once and leaves
the buffer unterminated. With one, it is proved to return what `ReadLine`
describes, and to leave the buffer NUL-terminated right after the stored
characters with the rest of the buffer untouched.

Motor pins are read back through `Observe`, which maps a pin state to a `Motion`.
The motor and drive contracts are stated through it. `Forward` yields
`Forwards(speed)`, `Reverse` yields `Backwards(speed)`, `Stop` yields `Stopped`,
and no command can yield `ShootThrough`.

A behaviour of the code to be aware of: when `connect`'s command draws no reply
at all, `connect` returns false and leaves `connected` as it was. A bridge that
was connected stays connected (`Wifi.UnacknowledgedConnectKeepsConnection`). The
flag is cleared in two ways only: by `disconnect`, or by a later `connect` whose
reply arrives but contains no line with `OK` (`Wifi.Connect`).

The source's `char` is one byte. Each Dafny `char` in the model stands for one
such byte. So the 127-, 255- and 383-character command limits and the
63-character limit on a read line are byte counts. Multibyte text encodings are
outside the model.

## Model

| member | source | states |
|---|---|---|
| `CStrings.CView` | include/wifi.h:168 | `strstr` sees the buffer's characters up to its first NUL; a buffer without NUL is seen whole |
| `CStrings.Truncate` | include/wifi.h:64-65 | `snprintf` into `size` bytes keeps a prefix of at most `size - 1` characters; the text is kept whole exactly when it is shorter than `size`, and otherwise cut to exactly `size - 1` |
| `LineReader.StripCR` | include/wifi.h:149-151 | carriage returns are dropped, so none is ever stored |
| `LineReader.Scan` | include/wifi.h:142-157 | the reader loop from any state satisfying its invariant ends in a read meeting the relational description `IsLineRead` |
| `LineReader.ReadLine` | include/wifi.h:139-158 | a read stores at most `capacity - 1` characters and never a CR or LF; it stops at the first LF, at the end of input, or when the buffer is full, and takes no character after that; it takes at least one character when there is input and room |
| `LineReader.IsLineReadUnique` | include/wifi.h:142-157 | the relational description of a read (consumed prefix, stored characters, LF seen, full-buffer stop) determines the result completely |
| `LineReader.ReadLineIntoBuffer` | include/wifi.h:136-158 | without a channel: false, nothing consumed, the buffer left as it was and not terminated; with one, the loop that stores into the caller's buffer returns the flag and consumes the characters `ReadLine` describes, writes the stored characters followed by NUL, and leaves every later buffer byte untouched |
| `LineReader.CrLfLineIsStoredWithoutCr` | include/wifi.h:145-151 | two ordinary characters followed by CR LF give success, with the buffer holding exactly those two characters, for every capacity of at least 3 |
| `LineReader.NothingReceivedFails` | include/wifi.h:156-157 | with no input before the timeout the read fails and the buffer holds the empty string |
| `LineReader.BareLineFeedSucceedsEmpty` | include/wifi.h:145-148 | a lone LF succeeds with an empty line after consuming one character |
| `LineReader.CapacityOneReadsNothing` | include/wifi.h:142-157 | a one-byte buffer makes the read fail without consuming any input |
| `Wifi.NewBridge` | include/wifi.h:14-16 | a new bridge has no channel and is not connected, which satisfies the bridge invariant |
| `Wifi.Begin` | include/wifi.h:24-34 | `begin` creates the channel and changes neither the connection flag nor what was sent |
| `Wifi.SendCommand` | include/wifi.h:37-57 | without a channel nothing is written and the result is false; otherwise the line is written and the result is true exactly when a reply character arrived |
| `Wifi.ResponseLines` | include/wifi.h:166-171 | each of the successive 64-byte reads of `waitForResponse` consumes at least one character |
| `Wifi.ResponseLinesCoverInput` | include/wifi.h:166-171 | the successive reads together consume every input character exactly once |
| `Wifi.WaitForResponse` | include/wifi.h:162-174 | the search fails when nothing arrives before the timeout |
| `Wifi.WaitForResponseFindsToken` | include/wifi.h:166-173 | `waitForResponse` returns true if and only if one of the lines it reads succeeds and contains the token as a substring |
| `Wifi.ConnectCommand` | include/wifi.h:63-65 | the connect line is a prefix of `WIFI_CONNECT:<ssid>,<password>` of at most 127 characters, and is the whole text when it fits |
| `Wifi.HttpGetCommand` | include/wifi.h:98-99 | the GET line is a prefix of `HTTP_GET:<url>` of at most 255 characters, and is the whole text when it fits |
| `Wifi.HttpPostCommand` | include/wifi.h:111-112 | the POST line is a prefix of `HTTP_POST:<url>\|<data>` of at most 383 characters, and is the whole text when it fits |
| `Wifi.Connect` | include/wifi.h:60-72 | without a channel, false and nothing changes; otherwise the connect line is sent; success implies connected; with a reply the flag equals the result; with no reply the result is false and the flag is unchanged |
| `Wifi.ConnectSucceedsIffOkSeen` | include/wifi.h:67-70 | `connect` returns true if and only if the channel exists and some line read from the reply contains `OK` |
| `Wifi.UnacknowledgedConnectKeepsConnection` | include/wifi.h:67-71 | on a connected bridge, a connect with no reply returns false and the bridge stays connected |
| `Wifi.Disconnect` | include/wifi.h:75-79 | with a channel, sends `WIFI_DISCONNECT` and clears the flag; without one, nothing changes |
| `Wifi.GetIpAddress` | include/wifi.h:87-92 | not connected: false, nothing written, buffer untouched; connected: sends `GET_IP` and always reads the line `ReadLine` gives for the reply and capacity, which is what is stored and returned; success needs a connection and a reply |
| `Wifi.HttpGet` | include/wifi.h:95-105 | not connected: false, nothing written, buffer untouched; connected: sends the GET line and reads a line exactly when a reply arrived; the connection flag never changes |
| `Wifi.HttpPost` | include/wifi.h:108-118 | as `HttpGet`, sending the POST line |
| `Wifi.OperationsKeepValid` | include/wifi.h:60-118 | every operation preserves the bridge invariant "connected implies a channel exists" |
| `Wifi.NotConnectedTouchesNothing` | include/wifi.h:88-109 | with the flag false, `getIpAddress`, `httpGet` and `httpPost` return false and write no command |
| `Motors.NewMotor` | include/motor.h:8-9 | the constructor records the PWM and inversion flags and leaves the motor stopped |
| `Motors.ActiveLevel` | include/motor.h:42-46 | the active pin is never low; it gets a PWM duty exactly when the motor is PWM-capable and the speed is below 255; its duty is the effective speed |
| `Motors.SetDirection` | include/motor.h:39-47 | the inactive pin is low, the active pin gets the active level, and the flags are kept |
| `Motors.Forward` | include/motor.h:17-23 | reads back as forwards at the effective speed; at least one pin is low; a straight motor drives pin A with pin B low |
| `Motors.Reverse` | include/motor.h:25-31 | reads back as backwards at the effective speed; at least one pin is low; a straight motor drives pin B with pin A low |
| `Motors.Stop` | include/motor.h:33-36 | both pins low whatever they were before; reads back as stopped |
| `Motors.Begin` | include/motor.h:11-15 | after `begin` the motor is stopped |
| `Motors.InversionSwapsDirections` | include/motor.h:17-31 | an inverted motor's forward sets the pins exactly as a straight motor's reverse, and the other way round |
| `Motors.NonPwmIgnoresSpeed` | include/motor.h:42-46 | without PWM the pin outputs do not depend on the speed |
| `Motors.CommandsIgnorePriorState` | include/motor.h:17-47 | the pins after forward, reverse or stop depend only on the flags and the speed, so repeating a command changes nothing |
| `RobotDrive.Front` | include/robot_drive.h:76-77 | each pair's front motor is on that pair's side |
| `RobotDrive.Back` | include/robot_drive.h:76-77 | each pair's back motor is on that pair's side and differs from its front motor |
| `RobotDrive.PairsPartitionMotors` | include/robot_drive.h:76-77 | every motor belongs to its own side's pair (left is motors 1 and 3, right is motors 2 and 4) and to no motor slot of the other pair |
| `RobotDrive.NewController` | include/robot_drive.h:9-13 | motors 1 and 2 are PWM-capable, motors 2 and 3 are inverted, and all start stopped |
| `RobotDrive.ApplyToAll` | include/robot_drive.h:63-69 | the operation is applied to each of the four motors and to nothing else |
| `RobotDrive.PairForward` | include/robot_drive.h:52-55 | both motors of one side go forward; the other side is untouched |
| `RobotDrive.PairReverse` | include/robot_drive.h:57-60 | both motors of one side go into reverse; the other side is untouched |
| `RobotDrive.Begin` | include/robot_drive.h:15-17 | after `begin` all four motors are stopped |
| `RobotDrive.Forward` | include/robot_drive.h:19-21 | every motor runs forwards at its effective speed; the flags are kept |
| `RobotDrive.Reverse` | include/robot_drive.h:23-25 | every motor runs backwards at its effective speed; the flags are kept |
| `RobotDrive.Stop` | include/robot_drive.h:37-39 | every pin of every motor is low |
| `RobotDrive.TurnLeft` | include/robot_drive.h:27-30 | left motors run backwards and right motors forwards, at the same requested speed |
| `RobotDrive.TurnRight` | include/robot_drive.h:32-35 | left motors run forwards and right motors backwards, at the same requested speed |
| `RobotDrive.TurnsAreMirrors` | include/robot_drive.h:27-35 | every wheel under `turnRight` turns opposite to how it turns under `turnLeft`, at the same speed |
| `RobotDrive.ConfiguredForwardPins` | include/robot_drive.h:9-13 | with the constructor's flags and a speed below 255, front motors get `Pwm(speed)` and back motors full `High`; the inverted motors drive pin B |
| `RobotDrive.ManoeuvresIgnorePriorState` | include/robot_drive.h:19-39 | each manoeuvre's pin state depends only on the wiring and the speed, not on the previous outputs |
| `RobotDrive.ManoeuvresIdempotent` | include/robot_drive.h:19-39 | repeating any manoeuvre gives the same pin state as doing it once |
| `Rgb.NewLed` | include/rgb_led.h:39 | the remembered on/off flag starts off |
| `Rgb.SetColor` | include/rgb_led.h:16-20 | each channel is lit exactly when its argument is true; the remembered flag is untouched |
| `Rgb.On` | include/rgb_led.h:22 | all three channels lit; flag untouched |
| `Rgb.Off` | include/rgb_led.h:23 | no channel lit; flag untouched |
| `Rgb.SetRed` | include/rgb_led.h:25 | only red lit, the other channels overwritten; flag untouched |
| `Rgb.SetGreen` | include/rgb_led.h:26 | only green lit; flag untouched |
| `Rgb.SetBlue` | include/rgb_led.h:27 | only blue lit; flag untouched |
| `Rgb.Begin` | include/rgb_led.h:9-14 | no channel lit; flag untouched |
| `Rgb.Toggle` | include/rgb_led.h:29-32 | the flag flips, and then all channels are lit or none, matching the new flag |
| `Rgb.SetColorIdempotent` | include/rgb_led.h:16-20 | setting the same colour twice equals setting it once |
| `Rgb.ToggleTwice` | include/rgb_led.h:29-32 | two toggles restore the flag, leave all channels matching it, and do not bring back a single colour set before |
| `Rgb.ToggleIgnoresShownColour` | include/rgb_led.h:25-32 | after a single-colour setter on an LED whose flag is on, a toggle turns every channel off |

## Left out

- `include/camera.h` (class `Camera`): every call is a direct pass-through to `Serial` with fixed command strings. It has no logic to model.
- `src/main.cpp`: the heartbeat demo. It is one LED toggle timed with `millis()` plus console prints.
- Real time: `millis()`, `delay()` and the timeout arguments are not modelled. This includes the unsigned 16-bit remaining-time arithmetic in `waitForResponse`. A timeout is the end of the input sequence.
- Wifi.SendCommand: "acknowledged" means the reply sequence is non-empty. The model does not separate a reply that arrives within `sendCommand`'s own window from one that arrives later, inside the following read's window.
- Wifi.Connect: `sendCommand` and the following `waitForResponse` read the same reply sequence. Their two separate timeout windows are merged into that one sequence.
- `sendCommand` and `begin` discard input that is pending before the command is written. The model starts each reply after the command, so that stale input is not represented.
- The `SoftwareSerial` object is reduced to the `open` flag (`serial_ != nullptr`). Not modelled: its construction and baud rate, the destructor's `delete`, and the raw `available`/`read`/`write` pass-throughs.
- `isConnected` is the `connected` field of `Wifi.Bridge`. `readResponse` is `readLine` with the same arguments, so the guarded commands call `LineReader.ReadLine` directly.
- LineReader.ReadLine: it is the read on an existing channel. The no-channel early return of `readLine` (false, nothing consumed, the buffer left unterminated) is in `LineReader.ReadLineIntoBuffer`. The bridge's own callers only read after checking the channel.
- `readLine` with a zero-byte buffer computes `buffer_size - 1` in `size_t` and writes out of bounds. The model requires a capacity of at least 1 wherever a read happens.
- `println` adds a line terminator. Commands are recorded as the text before that terminator.
- `pinMode`, electrical effects and concrete pin numbers are not modelled (`pins.h` is not part of this model). Pins are the abstract terminals A and B of each motor and the three colour channels. `analogWrite` with a duty is kept as `Pwm(duty)`, including duty 0.
- Motors.NewMotor: the constructor writes no pin. The model takes the pins to be low before `begin`.
- Rgb.NewLed: the colour channels are not written before `begin`. The model takes them to be dark.
- The `motor1()`–`motor4()` accessors are `RobotDrive.At`.
