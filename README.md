# ROV thruster control over a Pololu Maestro — a Dafny model

This project models the two pieces of the ROV's surface software that decide
what reaches the thrusters:

- `maestro.dfy` (module `Maestro`) — the Pololu Maestro serial encoder of
  `controller/software/maestro.py`:
  - set-target, set-speed and set-acceleration frames of 4 bytes, each
    carrying its value as two 7-bit bytes;
  - the get-position request and its 2-byte little-endian reply;
  - the go-home byte;
  - the conversion between microseconds and the Maestro's
    quarter-microsecond targets.

  The serial link is the class field `Controller.log`, the sequence of every
  byte written so far. Each command method appends its frame to it.

- `rov_control.dfy` (module `RovControl`) — `ROVController` of
  `controller/software/rov_control.py`:
  - six buttons resolve to a power of +1, -1 or 0 per thruster;
  - `set_thruster_pwm` forces power 0 while the emergency flag is set, clamps
    to [-1, 1], maps forward power onto 1500..1900 us and reverse power onto
    1500..1100 us, truncates to whole microseconds, and sends a set-target
    frame;
  - `update_thrusters` records the three powers in `thruster_states` and
    sends channels 0, 1 and 2 in that order;
  - `emergency_stop_all` sets the one-way latch and sends neutral on all
    three channels.

  `RovController` is a class whose `ControlLoop` method runs a finite
  sequence of calls. Each call is one of:
  - an update, with the button reading of that tick;
  - an emergency stop between ticks, run by the shutdown signal handler
    through `cleanup`;
  - an update cut short: the shutdown signal handler runs `cleanup`, and so
    `emergency_stop_all`, after 0, 1 or 2 of the update's three frames have
    gone out, and the exit it raises abandons the rest.

  The pure function `Emitted` specifies the bytes such a run writes.

The main results:

- Every byte the controller writes, on every run, forms set-target frames
  with the following properties (`EmittedIsSafe`):
  - each frame is on channel 0, 1 or 2;
  - both data bytes have the top bit clear;
  - the pulse lies within 1100..1900 us, whatever powers are requested.
- From the emergency stop on, whether it lands between ticks or in the
  middle of one, the run writes the 12 neutral stop bytes and then only
  neutral frames (`StopIsFinal`, `LatchedEmitsOnlyNeutral`).
- Each button pair produces exactly the pulse it should, after the 7+7-bit
  encoding has been decoded (`UpdateFramesLayout`).
- The frame encoding round-trips exactly in the 14-bit range and keeps the
  low 14 bits otherwise (`CommandRoundTrip`).

Behaviour of the code worth knowing, which the model follows:

- A target of 16384 or more is not rejected. The code drops the bits above
  the low 14, and so does `Maestro.Command` (`CommandDropsHighBits`).
- Power is not scaled by any power limit or per-thruster direction
  multiplier. Clamping to [-1, 1] is the only adjustment.
- There are no arming states. The only safety state is the one-way
  emergency-stop flag.
- Python's `int()` truncates toward zero. In both branches of the pulse
  mapping the value truncated is at least 1100, so truncation rounds down.
  The reverse branch does not round up.

## Model

| member | source | states |
|---|---|---|
| Maestro.Command | controller/software/maestro.py:64-70 | a frame is 4 bytes: opcode, channel, then two data bytes each below 128 |
| Maestro.SplitKeepsLow14 | controller/software/maestro.py:66-68 | low 7 bits plus 128 times the next 7 bits is the value mod 2^14, for every integer including negatives |
| Maestro.CommandRoundTrip | controller/software/maestro.py:64-70 | decoding a frame's data bytes gives the value mod 16384 |
| Maestro.CommandRoundTripInRange | controller/software/maestro.py:64-70 | for 0 <= value < 16384 the frame decodes to exactly the value |
| Maestro.CommandDropsHighBits | controller/software/maestro.py:66-68 | the frame depends only on value mod 2^14: higher bits are silently lost |
| Maestro.CommandInjective | controller/software/maestro.py:64-70 | two in-range values with the same frame are equal |
| Maestro.NeutralTargetBytes | controller/software/maestro.py:56-70 | neutral target 6000 is sent as 0x84, channel, 0x70, 0x2E |
| Maestro.DecodePosition | controller/software/maestro.py:117-123 | a position exists iff the reply has exactly 2 bytes, and it then lies in 0..65535 |
| Maestro.PositionRoundTrip | controller/software/maestro.py:119-121 | the low-byte-first reply of any 16-bit position decodes back to it |
| Maestro.ReplyRoundTrip | controller/software/maestro.py:119-121 | every 2-byte reply is the encoding of the position it decodes to |
| Maestro.MicrosecondsRoundTrip | controller/software/maestro.py:151-174 | target_to_microseconds inverts microseconds_to_target on whole microseconds, and targets are multiples of 4 |
| Maestro.EscTargets | controller/software/maestro.py:59-62 | 1000, 1500 and 2000 us are targets 4000, 6000 and 8000, and 6000 is 1500 us |
| Maestro.IsByte | controller/software/maestro.py:70 | no contract of its own: the channels `bytes()` accepts; the Controller methods' `ok == IsByte(channel)` ensures state that every other channel writes nothing |
| Maestro.Low7 | controller/software/maestro.py:67 | no contract of its own: `value & 0x7F` as a floored remainder; SplitKeepsLow14 and CommandRoundTrip state what it keeps |
| Maestro.High7 | controller/software/maestro.py:68 | no contract of its own: `(value >> 7) & 0x7F` with a flooring shift; SplitKeepsLow14 and CommandRoundTrip state what it keeps |
| Maestro.MicrosecondsToTarget | controller/software/maestro.py:151-161 | no contract of its own: `int(us * 4)` on whole microseconds; MicrosecondsRoundTrip and EscTargets state its properties |
| Maestro.TargetToMicroseconds | controller/software/maestro.py:164-174 | no contract of its own: `target / 4.0`; MicrosecondsRoundTrip states that it inverts MicrosecondsToTarget |
| Maestro.Controller.GetPosition | controller/software/maestro.py:103-123 | appends [0x90, channel] iff the channel is a byte, and returns DecodePosition of the reply, or None when nothing is written |
| Maestro.Controller.constructor | controller/software/maestro.py:42-44 | a new connection has written nothing and stores its device number |
| Maestro.Controller.SetTarget | controller/software/maestro.py:50-71 | succeeds iff the channel is a byte, and then appends exactly the 0x84 frame; otherwise the log is unchanged |
| Maestro.Controller.SetSpeed | controller/software/maestro.py:73-86 | succeeds iff the channel is a byte, and then appends exactly the 0x87 frame; otherwise the log is unchanged |
| Maestro.Controller.SetAcceleration | controller/software/maestro.py:88-101 | succeeds iff the channel is a byte, and then appends exactly the 0x89 frame; otherwise the log is unchanged |
| Maestro.Controller.GoHome | controller/software/maestro.py:125-131 | appends the single byte 0xA2 |
| RovControl.Clamp | controller/software/rov_control.py:64-65 | the result is in [-1, 1], equals the power inside that range, and is the nearer bound outside it |
| RovControl.TruncateToInt | controller/software/rov_control.py:72-75 | int() rounds toward zero: below x by less than 1 for x >= 0, above it by less than 1 for x < 0 |
| RovControl.PowerToPulse | controller/software/rov_control.py:64-75 | no contract of its own: clamp, then the forward or reverse branch truncated by int(); PulseWithinRange, PulseEnds, PulseScalesPerDirection, PulseSign and PulseMonotone state its properties |
| RovControl.PulseWithinRange | controller/software/rov_control.py:64-75 | every power, however large or small, maps to a pulse in 1100..1900 us |
| RovControl.PulseEnds | controller/software/rov_control.py:68-75 | power 0 gives 1500, power >= 1 gives 1900 and power <= -1 gives 1100 |
| RovControl.PulseScalesPerDirection | controller/software/rov_control.py:67-75 | forward power scales by 400 us above neutral and reverse power by 400 us below it, each within one microsecond of truncation |
| RovControl.PulseSign | controller/software/rov_control.py:67-75 | the pulse is below neutral iff the power is negative |
| RovControl.PulseMonotone | controller/software/rov_control.py:64-75 | more power never gives a shorter pulse |
| RovControl.ThrusterTarget | controller/software/rov_control.py:59-78 | the target is within 4400..7600, and is 6000 whenever the emergency flag is set |
| RovControl.ThrusterFrameDecodes | controller/software/rov_control.py:77-79 | the frame is a set-target on its channel that decodes to exactly the mapped pulse, or to neutral when latched |
| RovControl.EmergencyFrameIsNeutral | controller/software/rov_control.py:61-62 | while latched, the frame is 0x84, channel, 0x70, 0x2E whatever power is asked |
| RovControl.ResolveAxis | controller/software/rov_control.py:94-113 | power is +1 iff forward is pressed, -1 iff only back is, 0 iff neither |
| RovControl.AxisPulse | controller/software/rov_control.py:94-113 | a resolved button pair maps to the end of the range it asks for, or to neutral |
| RovControl.ThrusterFramePulse | controller/software/rov_control.py:59-79 | a button pair's frame decodes to the pulse the pair asks for, or to neutral when latched |
| RovControl.UpdateFramesLayout | controller/software/rov_control.py:120-123 | an update writes 12 bytes: set-target frames on channels 0, 1, 2 in order, each decoding to its pair's expected pulse |
| RovControl.ThrusterFrame | controller/software/rov_control.py:77-79 | no contract of its own: the set-target frame for the overridden, mapped and converted power; ThrusterFrameDecodes, EmergencyFrameIsNeutral and SafeThrusterFrame state its properties |
| RovControl.UpdateFrames | controller/software/rov_control.py:120-123 | no contract of its own: the three frames of update_thrusters; UpdateFramesLayout, LatchedUpdateIsStop and SafeUpdateFrames state its properties |
| RovControl.StopFrames | controller/software/rov_control.py:127-130 | no contract of its own: the three frames of emergency_stop_all; StopFramesBytes and SafeStopFrames state its properties |
| RovControl.ResolvedStates | controller/software/rov_control.py:115-118 | no contract of its own: thruster_states with the three resolved powers; RecordStates and UpdateThrusters are proved to produce it |
| RovControl.PartialUpdateFrames | controller/software/rov_control.py:120-122 | no contract of its own: the frames an update writes before a shutdown signal cuts it short; PartialUpdateIsPrefix and SafePartialUpdate state its properties |
| RovControl.PartialUpdateIsPrefix | controller/software/rov_control.py:120-123 | an update cut short after `sent` frames has written exactly the first 4 * sent bytes of the whole update |
| RovControl.StopFramesBytes | controller/software/rov_control.py:125-130 | an emergency stop writes exactly 84 00 70 2E, 84 01 70 2E, 84 02 70 2E |
| RovControl.LatchedUpdateIsStop | controller/software/rov_control.py:61-62 | once latched, an update writes the same bytes as an emergency stop, whatever the buttons |
| RovControl.TargetFramesAppend | controller/software/rov_control.py:77-79 | appending one log of thruster set-target frames within a target range to another gives such a log |
| RovControl.SafeLogAppend | controller/software/rov_control.py:77-79 | appending a safe log to a safe log gives a safe log (thruster set-target frames within 1100..1900 us, and neutral when latched) |
| RovControl.SafeThrusterFrame | controller/software/rov_control.py:59-79 | a frame for channel 0, 1 or 2 is a safe set-target, and neutral when latched |
| RovControl.SafePartialUpdate | controller/software/rov_control.py:120-122 | the frames of an update cut short are safe, and neutral when latched |
| RovControl.SafeUpdateFrames | controller/software/rov_control.py:120-123 | everything an update writes is safe, and neutral when latched |
| RovControl.SafeStopFrames | controller/software/rov_control.py:125-130 | everything an emergency stop writes is safe and neutral |
| RovControl.AllThrusterFrames | controller/software/rov_control.py:121-130 | no contract of its own: the three set_thruster_pwm frames on channels 0, 1, 2 in that order; UpdateFramesLayout and StopFramesBytes state its properties |
| RovControl.Latched | controller/software/rov_control.py:55-127 | no contract of its own: the value of emergency_stop after a run, set by any call that runs emergency_stop_all; LatchedSnoc, LatchedAppend and StopIsFinal state its properties |
| RovControl.StepFrames | controller/software/rov_control.py:90-130 | no contract of its own: the bytes one call writes; SafeStepFrames states its property |
| RovControl.StepStates | controller/software/rov_control.py:115-118 | no contract of its own: thruster_states after one call; RunCall is proved to produce it |
| RovControl.Emitted | controller/software/rov_control.py:166-168 | no contract of its own: every byte a run writes; EmittedSnoc, EmittedAppend, EmittedIsSafe and StopIsFinal state its properties, and ControlLoop is proved to write it |
| RovControl.StatesAfter | controller/software/rov_control.py:166-168 | no contract of its own: thruster_states after a run; ControlLoop is proved to produce it |
| RovControl.LatchedSnoc | controller/software/rov_control.py:125-127 | the flag after one more call is set iff it was set before or the call runs emergency_stop_all |
| RovControl.LatchedAppend | controller/software/rov_control.py:125-127 | the flag after two runs in a row is the flag the second run leaves, starting from the flag the first one left |
| RovControl.EmittedSnoc | controller/software/rov_control.py:166-168 | the bytes of a run extended by one call are the old bytes then that call's frames, under the latch so far |
| RovControl.EmittedAppend | controller/software/rov_control.py:166-168 | the bytes of two runs in a row are the first run's, then the second's under the latch left by the first |
| RovControl.SafeStepFrames | controller/software/rov_control.py:90-147 | each call (update, emergency stop, or an update cut short by the shutdown signal) writes only safe frames, and only neutral ones when latched |
| RovControl.EmittedIsSafe | controller/software/rov_control.py:166-168 | everything any run writes is set-target frames on channels 0..2 with 7-bit data bytes and pulses in 1100..1900 us, and all neutral if the run starts latched |
| RovControl.LatchedEmitsOnlyNeutral | controller/software/rov_control.py:61-62 | from a latched start, every frame any run writes is neutral (target 6000), whatever the buttons |
| RovControl.StopIsFinal | controller/software/rov_control.py:125-147 | a call that runs emergency_stop_all, between ticks or mid-update, latches the flag for good; the run writes what came before, the part of a cut-short update that went out, the 12 stop bytes, then only neutral frames |
| RovControl.RovController.constructor | controller/software/rov_control.py:15-55 | nothing written yet, the Maestro on its default device number 0x0C, all three states 0.0, emergency flag clear |
| RovControl.RovController.SetThrusterPwm | controller/software/rov_control.py:59-79 | appends the mapped set-target frame iff the channel is a byte; otherwise the log is unchanged |
| RovControl.RovController.SetAllThrusters | controller/software/rov_control.py:121-123 | appends the frames for channels 0, 1, 2 in that order |
| RovControl.RovController.RecordStates | controller/software/rov_control.py:115-118 | sets the three thruster_states entries and keeps any others |
| RovControl.RovController.UpdateThrusters | controller/software/rov_control.py:90-123 | records the resolved powers, keeps the latch, and appends the update frames for the current latch |
| RovControl.RovController.SendFirstFrames | controller/software/rov_control.py:121-122 | appends exactly the first `sent` frames of the update |
| RovControl.RovController.UpdateInterruptedByStop | controller/software/rov_control.py:115-147 | an update interrupted by the shutdown signal: records the resolved powers, appends the frames already sent, then the 12 stop bytes, and sets the latch |
| RovControl.RovController.EmergencyStopAll | controller/software/rov_control.py:125-130 | sets the latch, keeps thruster_states, and appends the 12 neutral stop bytes |
| RovControl.RovController.RunCall | controller/software/rov_control.py:90-147 | one call: the latch is set iff it was or the call stops, the states are StepStates, and the log gains StepFrames |
| RovControl.RovController.ControlLoop | controller/software/rov_control.py:166-176 | after a run of calls, the latch, the states and the log are those Latched, StatesAfter and Emitted give for the run |

## Left out

- Opening and closing the serial port, the context manager, and `time.sleep`: these are I/O. The log models what is written. The reply to getPosition is a parameter.
- Serial write failures (`SerialException`) and read timeouts other than a short reply.
- GPIO setup and `read_buttons`: each button reading is a `Buttons` value passed in, with true meaning pressed.
- `cleanup` and `signal_handler`: only the `emergency_stop_all` that the shutdown signal reaches through them is modelled, between ticks or in the middle of an update. Port closing, `GPIO.cleanup` and `sys.exit` are I/O.
- `main`'s exception handler (rov_control.py:178-182): it never calls `cleanup`. `rov` is declared `global` in `main`, so the `'rov' in locals()` test is always false. A fault in the loop, such as a GPIO or serial error, therefore ends the run with no neutral frames, and the thrusters keep their last command. The model has no call for this path: such a run is a finite run that simply ends.
- Debug printing and the once-a-second timing test in the main loop.
- RovControl.RovController.ControlLoop: the source loops forever. The model runs any finite prefix of calls, and the lemmas hold for every such prefix. After a stop the model lets the run go on, although the source exits; this only widens what the lemmas cover.
- RovControl.RovController.UpdateInterruptedByStop: a signal that lands before or between the three `thruster_states` assignments (lines 116-118) is not modelled separately. It writes the same bytes as an interruption after 0 frames, and only `thruster_states` differs. A second signal that interrupts `cleanup` itself is not modelled.
- Python floats: the model uses exact reals. Float rounding, NaN and infinities are not modelled.
- Maestro.Controller.SetTarget: `int(target)` applied to a float target is not modelled, because every target in this system is already an integer.
- Maestro.Controller.SetSpeed: the parameter is an integer. A float speed would make `speed & 0x7F` raise `TypeError`, and that error path is not modelled. Nothing in this system calls setSpeed.
- Maestro.Controller.SetAcceleration: the parameter is an integer. A float acceleration would make `acceleration & 0x7F` raise `TypeError`, and that error path is not modelled. Nothing in this system calls setAcceleration.
- Maestro.MicrosecondsToTarget: defined on whole microseconds, as every caller in this system passes one.
- `thruster_states` keys: the string keys 'h1', 'h2' and 'v' are modelled as the enumeration `Thruster`.
- The device-number (Pololu protocol) frame format: the code stores a device number but sends only compact-protocol frames.
- `controller/software/config.py`, the calibration and test scripts, and the camera scripts are not part of this model.
