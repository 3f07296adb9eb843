/** The thruster controller of controller/software/rov_control.py: button
    pairs resolve to a power of +1, -1 or 0 per thruster; a power is clamped
    to [-1, 1] and mapped to a pulse width with separate forward and reverse
    ranges around neutral; the pulse is sent to the Maestro as a set-target
    frame; and a one-way emergency latch forces neutral on every later send.

    Python floats are modelled as reals. */
module RovControl {
  import opened Maestro

  /** ROVController's pulse widths in microseconds: stopped, full reverse, full forward. */
  const PWM_NEUTRAL: int := 1500
  const PWM_MIN: int := 1100
  const PWM_MAX: int := 1900

  const THRUSTER_HORIZONTAL_1: Byte := 0
  const THRUSTER_HORIZONTAL_2: Byte := 1
  const THRUSTER_VERTICAL: Byte := 2

  /** The keys of thruster_states: 'h1', 'h2' and 'v'. */
  datatype Thruster = H1 | H2 | V

  /** One reading of the six buttons; true means pressed. */
  datatype Buttons = Buttons(
    h1Forward: bool, h1Back: bool,
    h2Forward: bool, h2Back: bool,
    vUp: bool, vDown: bool)

  // ---------------------------------------------------------------------
  // Power to pulse width
  // ---------------------------------------------------------------------

  /** `max(-1.0, min(1.0, power))`. */
  function Clamp(power: real): (p: real)
    ensures -1.0 <= p <= 1.0
    ensures -1.0 <= power <= 1.0 ==> p == power
    ensures power > 1.0 ==> p == 1.0
    ensures power < -1.0 ==> p == -1.0
  {
    var upper := if power < 1.0 then power else 1.0;
    if -1.0 > upper then -1.0 else upper
  }

  /** Python's `int()` on a float: rounds toward zero. */
  function TruncateToInt(x: real): (n: int)
    ensures 0.0 <= x ==> n as real <= x < n as real + 1.0
    ensures x < 0.0 ==> n as real - 1.0 < x <= n as real
  {
    if x >= 0.0 then x.Floor else -((-x).Floor)
  }

  /** The pulse width set_thruster_pwm computes for `power` once the
      emergency override has been applied: clamp, then scale by the forward
      range (PWM_MAX - PWM_NEUTRAL) above zero and by the reverse range
      (PWM_NEUTRAL - PWM_MIN) below it, truncating to whole microseconds. */
  function PowerToPulse(power: real): (pulse: int) {
    var p := Clamp(power);
    if p == 0.0 then PWM_NEUTRAL
    else if p > 0.0 then TruncateToInt(PWM_NEUTRAL as real + p * (PWM_MAX - PWM_NEUTRAL) as real)
    else TruncateToInt(PWM_NEUTRAL as real + p * (PWM_NEUTRAL - PWM_MIN) as real)
  }

  /** Whatever power is asked for, the pulse lies within [PWM_MIN, PWM_MAX]. */
  lemma PulseWithinRange(power: real)
    ensures PWM_MIN <= PowerToPulse(power) <= PWM_MAX
  {
  }

  /** Power 0 is exactly neutral; full forward and full reverse (or beyond) are the range's ends. */
  lemma PulseEnds(power: real)
    ensures power == 0.0 ==> PowerToPulse(power) == PWM_NEUTRAL
    ensures power >= 1.0 ==> PowerToPulse(power) == PWM_MAX
    ensures power <= -1.0 ==> PowerToPulse(power) == PWM_MIN
  {
  }

  /** Each direction scales by its own range: forward power p in (0, 1] is
      within one microsecond below PWM_NEUTRAL + p * (PWM_MAX - PWM_NEUTRAL), reverse
      power within one microsecond below PWM_NEUTRAL + p * (PWM_NEUTRAL - PWM_MIN). */
  lemma PulseScalesPerDirection(power: real)
    requires -1.0 <= power <= 1.0
    ensures power > 0.0 ==>
      var exact := PWM_NEUTRAL as real + power * (PWM_MAX - PWM_NEUTRAL) as real;
      exact - 1.0 < PowerToPulse(power) as real <= exact
    ensures power < 0.0 ==>
      var exact := PWM_NEUTRAL as real + power * (PWM_NEUTRAL - PWM_MIN) as real;
      exact - 1.0 < PowerToPulse(power) as real <= exact
  {
  }

  /** Reverse power gives a pulse below neutral; forward or zero power one at or above it. */
  lemma PulseSign(power: real)
    ensures PowerToPulse(power) < PWM_NEUTRAL <==> power < 0.0
  {
  }

  /** The mapping is monotone in power. */
  lemma PulseMonotone(p1: real, p2: real)
    requires p1 <= p2
    ensures PowerToPulse(p1) <= PowerToPulse(p2)
  {
  }

  // ---------------------------------------------------------------------
  // What reaches the Maestro
  // ---------------------------------------------------------------------

  /** The quarter-microsecond target set_thruster_pwm sends: power forced to 0
      while the emergency flag is set, then mapped and converted. */
  function ThrusterTarget(emergencyStop: bool, power: real): (target: int)
    ensures MicrosecondsToTarget(PWM_MIN) <= target <= MicrosecondsToTarget(PWM_MAX)
    ensures emergencyStop ==> target == MicrosecondsToTarget(PWM_NEUTRAL)
  {
    var p := if emergencyStop then 0.0 else power;
    PulseWithinRange(p);
    PulseEnds(p);
    MicrosecondsToTarget(PowerToPulse(p))
  }

  /** The set-target frame set_thruster_pwm writes for one channel. */
  function ThrusterFrame(channel: Byte, emergencyStop: bool, power: real): (frame: seq<Byte>) {
    Command(SET_TARGET, channel, ThrusterTarget(emergencyStop, power))
  }

  /** A thruster frame is a set-target on its channel whose value decodes to
      exactly the pulse sent, which lies within 1100..1900 microseconds. */
  lemma ThrusterFrameDecodes(channel: Byte, emergencyStop: bool, power: real)
    ensures |ThrusterFrame(channel, emergencyStop, power)| == 4
    ensures ThrusterFrame(channel, emergencyStop, power)[0] == SET_TARGET
    ensures ThrusterFrame(channel, emergencyStop, power)[1] == channel
    ensures FrameValue(ThrusterFrame(channel, emergencyStop, power)) == ThrusterTarget(emergencyStop, power)
    ensures TargetToMicroseconds(FrameValue(ThrusterFrame(channel, emergencyStop, power))) ==
            PowerToPulse(if emergencyStop then 0.0 else power) as real
  {
    var t := ThrusterTarget(emergencyStop, power);
    CommandRoundTripInRange(SET_TARGET, channel, t);
  }

  /** With the emergency flag set, every frame is neutral (1500 us, target 6000),
      whatever power was asked for. */
  lemma EmergencyFrameIsNeutral(channel: Byte, power: real)
    ensures ThrusterFrame(channel, true, power) == [0x84, channel, 0x70, 0x2E]
  {
    NeutralTargetBytes(channel);
  }

  /** A button pair: forward wins, then back, else stopped. */
  function ResolveAxis(forward: bool, back: bool): (power: real)
    ensures power == 1.0 <==> forward
    ensures power == -1.0 <==> !forward && back
    ensures power == 0.0 <==> !forward && !back
  {
    if forward then 1.0 else if back then -1.0 else 0.0
  }

  /** What a button pair should command, stated independently of the
      mapping: neutral while latched, otherwise full forward if forward is
      pressed, full reverse if only back is, neutral if neither. */
  function ExpectedPulse(emergencyStop: bool, forward: bool, back: bool): (pulse: int) {
    if emergencyStop then PWM_NEUTRAL
    else if forward then PWM_MAX
    else if back then PWM_MIN
    else PWM_NEUTRAL
  }

  /** Unless latched, a pressed pair drives the thruster to the end of its range. */
  lemma AxisPulse(forward: bool, back: bool)
    ensures PowerToPulse(ResolveAxis(forward, back)) == ExpectedPulse(false, forward, back)
  {
    PulseEnds(ResolveAxis(forward, back));
  }

  /** The 12 bytes of three set_thruster_pwm calls on channels 0, 1, 2, in that order. */
  function AllThrusterFrames(emergencyStop: bool, h1Power: real, h2Power: real, vPower: real): (frames: seq<Byte>) {
    ThrusterFrame(THRUSTER_HORIZONTAL_1, emergencyStop, h1Power) +
    ThrusterFrame(THRUSTER_HORIZONTAL_2, emergencyStop, h2Power) +
    ThrusterFrame(THRUSTER_VERTICAL, emergencyStop, vPower)
  }

  /** What update_thrusters writes: each pair's resolved power, channels 0, 1, 2. */
  function UpdateFrames(emergencyStop: bool, buttons: Buttons): (frames: seq<Byte>) {
    AllThrusterFrames(emergencyStop,
      ResolveAxis(buttons.h1Forward, buttons.h1Back),
      ResolveAxis(buttons.h2Forward, buttons.h2Back),
      ResolveAxis(buttons.vUp, buttons.vDown))
  }

  /** What emergency_stop_all writes: power 0, latched, on channels 0, 1, 2. */
  function StopFrames(): (frames: seq<Byte>) {
    AllThrusterFrames(true, 0.0, 0.0, 0.0)
  }

  /** The exact 12 bytes of emergency_stop_all: neutral 6000 on channels 0, 1, 2. */
  lemma StopFramesBytes()
    ensures StopFrames() == [0x84, 0, 0x70, 0x2E, 0x84, 1, 0x70, 0x2E, 0x84, 2, 0x70, 0x2E]
  {
    EmergencyFrameIsNeutral(THRUSTER_HORIZONTAL_1, 0.0);
    EmergencyFrameIsNeutral(THRUSTER_HORIZONTAL_2, 0.0);
    EmergencyFrameIsNeutral(THRUSTER_VERTICAL, 0.0);
  }

  /** Once latched, an update sends exactly what an emergency stop sends. */
  lemma LatchedUpdateIsStop(buttons: Buttons)
    ensures UpdateFrames(true, buttons) == StopFrames()
  {
    EmergencyFrameIsNeutral(THRUSTER_HORIZONTAL_1, ResolveAxis(buttons.h1Forward, buttons.h1Back));
    EmergencyFrameIsNeutral(THRUSTER_HORIZONTAL_2, ResolveAxis(buttons.h2Forward, buttons.h2Back));
    EmergencyFrameIsNeutral(THRUSTER_VERTICAL, ResolveAxis(buttons.vUp, buttons.vDown));
    StopFramesBytes();
  }

  /** thruster_states after an update: the three resolved powers, before any emergency override. */
  function ResolvedStates(states: map<Thruster, real>, buttons: Buttons): (updated: map<Thruster, real>) {
    states[H1 := ResolveAxis(buttons.h1Forward, buttons.h1Back)]
          [H2 := ResolveAxis(buttons.h2Forward, buttons.h2Back)]
          [V := ResolveAxis(buttons.vUp, buttons.vDown)]
  }

  /** The pulse, in microseconds, that a Maestro reads out of a set-target frame. */
  function PulseOf(frame: seq<Byte>): (microseconds: real)
    requires |frame| == 4
  {
    TargetToMicroseconds(FrameValue(frame))
  }

  /** A button pair's frame decodes to the pulse the pair asks for, neutral while latched. */
  lemma ThrusterFramePulse(channel: Byte, emergencyStop: bool, forward: bool, back: bool)
    ensures |ThrusterFrame(channel, emergencyStop, ResolveAxis(forward, back))| == 4
    ensures PulseOf(ThrusterFrame(channel, emergencyStop, ResolveAxis(forward, back))) ==
            ExpectedPulse(emergencyStop, forward, back) as real
  {
    ThrusterFrameDecodes(channel, emergencyStop, ResolveAxis(forward, back));
    AxisPulse(forward, back);
    PulseEnds(0.0);
  }

  /** update_thrusters writes exactly three set-target frames, on channels 0,
      1 and 2 in that order, and each carries the pulse its button pair asks for. */
  lemma UpdateFramesLayout(emergencyStop: bool, buttons: Buttons)
    ensures |UpdateFrames(emergencyStop, buttons)| == 12
    ensures forall k: nat :: k < 3 ==>
      FrameAt(UpdateFrames(emergencyStop, buttons), k)[0] == SET_TARGET &&
      FrameAt(UpdateFrames(emergencyStop, buttons), k)[1] == k
    ensures PulseOf(FrameAt(UpdateFrames(emergencyStop, buttons), 0)) ==
            ExpectedPulse(emergencyStop, buttons.h1Forward, buttons.h1Back) as real
    ensures PulseOf(FrameAt(UpdateFrames(emergencyStop, buttons), 1)) ==
            ExpectedPulse(emergencyStop, buttons.h2Forward, buttons.h2Back) as real
    ensures PulseOf(FrameAt(UpdateFrames(emergencyStop, buttons), 2)) ==
            ExpectedPulse(emergencyStop, buttons.vUp, buttons.vDown) as real
  {
    var f := UpdateFrames(emergencyStop, buttons);
    var f0 := ThrusterFrame(THRUSTER_HORIZONTAL_1, emergencyStop, ResolveAxis(buttons.h1Forward, buttons.h1Back));
    var f1 := ThrusterFrame(THRUSTER_HORIZONTAL_2, emergencyStop, ResolveAxis(buttons.h2Forward, buttons.h2Back));
    var f2 := ThrusterFrame(THRUSTER_VERTICAL, emergencyStop, ResolveAxis(buttons.vUp, buttons.vDown));
    ThrusterFramePulse(THRUSTER_HORIZONTAL_1, emergencyStop, buttons.h1Forward, buttons.h1Back);
    ThrusterFramePulse(THRUSTER_HORIZONTAL_2, emergencyStop, buttons.h2Forward, buttons.h2Back);
    ThrusterFramePulse(THRUSTER_VERTICAL, emergencyStop, buttons.vUp, buttons.vDown);
    assert f == f0 + f1 + f2;
    assert FrameAt(f, 0) == f0;
    assert FrameAt(f, 1) == f1;
    assert FrameAt(f, 2) == f2;
  }

  /** The first `sent` frames of update_thrusters, as written when a
      shutdown signal cuts the update short after channel `sent - 1`. */
  function PartialUpdateFrames(emergencyStop: bool, buttons: Buttons, sent: FramesSent): (frames: seq<Byte>) {
    var f0 := ThrusterFrame(THRUSTER_HORIZONTAL_1, emergencyStop, ResolveAxis(buttons.h1Forward, buttons.h1Back));
    var f1 := ThrusterFrame(THRUSTER_HORIZONTAL_2, emergencyStop, ResolveAxis(buttons.h2Forward, buttons.h2Back));
    if sent == 0 then [] else if sent == 1 then f0 else f0 + f1
  }

  /** A cut-short update writes exactly the first `sent` frames of a whole one. */
  lemma PartialUpdateIsPrefix(emergencyStop: bool, buttons: Buttons, sent: FramesSent)
    ensures |PartialUpdateFrames(emergencyStop, buttons, sent)| == 4 * sent
    ensures PartialUpdateFrames(emergencyStop, buttons, sent) == UpdateFrames(emergencyStop, buttons)[..4 * sent]
  {
    var f0 := ThrusterFrame(THRUSTER_HORIZONTAL_1, emergencyStop, ResolveAxis(buttons.h1Forward, buttons.h1Back));
    var f1 := ThrusterFrame(THRUSTER_HORIZONTAL_2, emergencyStop, ResolveAxis(buttons.h2Forward, buttons.h2Back));
    var f2 := ThrusterFrame(THRUSTER_VERTICAL, emergencyStop, ResolveAxis(buttons.vUp, buttons.vDown));
    assert UpdateFrames(emergencyStop, buttons) == (f0 + f1) + f2;
    assert ((f0 + f1) + f2)[..8] == f0 + f1;
    assert ((f0 + f1) + f2)[..4] == f0;
  }

  // ---------------------------------------------------------------------
  // Every byte the controller ever writes is a safe set-target frame
  // ---------------------------------------------------------------------

  /** The k-th 4-byte frame of a log. */
  function FrameAt(log: seq<Byte>, k: nat): (frame: seq<Byte>)
    requires 4 * k + 4 <= |log|
  {
    log[4 * k .. 4 * k + 4]
  }

  /** A well-formed set-target frame for one of the three thrusters whose
      target lies in lo..hi: both data bytes have the top bit clear, so the
      Maestro cannot take either for the start of a new command. */
  predicate TargetFrame(frame: seq<Byte>, lo: int, hi: int) {
    |frame| == 4 && frame[0] == SET_TARGET &&
    frame[1] in {THRUSTER_HORIZONTAL_1, THRUSTER_HORIZONTAL_2, THRUSTER_VERTICAL} &&
    frame[2] < 128 && frame[3] < 128 &&
    lo <= FrameValue(frame) <= hi
  }

  /** A log made only of such frames. */
  ghost predicate TargetFrames(log: seq<Byte>, lo: int, hi: int) {
    |log| % 4 == 0 &&
    forall k: nat :: 4 * k + 4 <= |log| ==> TargetFrame(FrameAt(log, k), lo, hi)
  }

  /** Every frame a thruster set-target within the ESC's range, 1100..1900 us,
      and, once the emergency flag is set, every frame neutral (1500 us). */
  ghost predicate SafeLog(latched: bool, log: seq<Byte>) {
    TargetFrames(log, MicrosecondsToTarget(PWM_MIN), MicrosecondsToTarget(PWM_MAX)) &&
    (latched ==> TargetFrames(log, MicrosecondsToTarget(PWM_NEUTRAL), MicrosecondsToTarget(PWM_NEUTRAL)))
  }

  /** Appending one log of in-range thruster frames to another keeps every frame in range. */
  lemma TargetFramesAppend(a: seq<Byte>, b: seq<Byte>, lo: int, hi: int)
    requires TargetFrames(a, lo, hi) && TargetFrames(b, lo, hi)
    ensures TargetFrames(a + b, lo, hi)
  {
    var n := |a| / 4;
    forall k: nat | 4 * k + 4 <= |a + b| ensures TargetFrame(FrameAt(a + b, k), lo, hi) {
      if k < n {
        assert FrameAt(a + b, k) == FrameAt(a, k);
      } else {
        assert FrameAt(a + b, k) == FrameAt(b, k - n);
      }
    }
  }

  /** Writing a safe log after a safe log keeps the whole log safe. */
  lemma SafeLogAppend(latched: bool, a: seq<Byte>, b: seq<Byte>)
    requires SafeLog(latched, a) && SafeLog(latched, b)
    ensures SafeLog(latched, a + b)
  {
    TargetFramesAppend(a, b, MicrosecondsToTarget(PWM_MIN), MicrosecondsToTarget(PWM_MAX));
    if latched {
      TargetFramesAppend(a, b, MicrosecondsToTarget(PWM_NEUTRAL), MicrosecondsToTarget(PWM_NEUTRAL));
    }
  }

  /** One set_thruster_pwm frame on a thruster channel is safe, and neutral while latched. */
  lemma SafeThrusterFrame(channel: Byte, emergencyStop: bool, power: real)
    requires channel in {THRUSTER_HORIZONTAL_1, THRUSTER_HORIZONTAL_2, THRUSTER_VERTICAL}
    ensures SafeLog(emergencyStop, ThrusterFrame(channel, emergencyStop, power))
  {
    var f := ThrusterFrame(channel, emergencyStop, power);
    ThrusterFrameDecodes(channel, emergencyStop, power);
    forall k: nat | 4 * k + 4 <= |f| ensures FrameAt(f, k) == f {
      assert k == 0;
    }
  }

  /** The frames of an update cut short are safe, and neutral while latched. */
  lemma SafePartialUpdate(emergencyStop: bool, buttons: Buttons, sent: FramesSent)
    ensures SafeLog(emergencyStop, PartialUpdateFrames(emergencyStop, buttons, sent))
  {
    var f0 := ThrusterFrame(THRUSTER_HORIZONTAL_1, emergencyStop, ResolveAxis(buttons.h1Forward, buttons.h1Back));
    var f1 := ThrusterFrame(THRUSTER_HORIZONTAL_2, emergencyStop, ResolveAxis(buttons.h2Forward, buttons.h2Back));
    SafeThrusterFrame(THRUSTER_HORIZONTAL_1, emergencyStop, ResolveAxis(buttons.h1Forward, buttons.h1Back));
    SafeThrusterFrame(THRUSTER_HORIZONTAL_2, emergencyStop, ResolveAxis(buttons.h2Forward, buttons.h2Back));
    SafeLogAppend(emergencyStop, f0, f1);
  }

  /** Everything an update writes is safe, and neutral while latched. */
  lemma SafeUpdateFrames(emergencyStop: bool, buttons: Buttons)
    ensures SafeLog(emergencyStop, UpdateFrames(emergencyStop, buttons))
  {
    var f0 := ThrusterFrame(THRUSTER_HORIZONTAL_1, emergencyStop, ResolveAxis(buttons.h1Forward, buttons.h1Back));
    var f1 := ThrusterFrame(THRUSTER_HORIZONTAL_2, emergencyStop, ResolveAxis(buttons.h2Forward, buttons.h2Back));
    var f2 := ThrusterFrame(THRUSTER_VERTICAL, emergencyStop, ResolveAxis(buttons.vUp, buttons.vDown));
    SafePartialUpdate(emergencyStop, buttons, 2);
    SafeThrusterFrame(THRUSTER_VERTICAL, emergencyStop, ResolveAxis(buttons.vUp, buttons.vDown));
    SafeLogAppend(emergencyStop, f0 + f1, f2);
  }

  /** The emergency stop's frames are safe and neutral. */
  lemma SafeStopFrames()
    ensures SafeLog(true, StopFrames())
  {
    var idle := Buttons(false, false, false, false, false, false);
    SafeUpdateFrames(true, idle);
    LatchedUpdateIsStop(idle);
  }

  // ---------------------------------------------------------------------
  // A run of the controller: the main loop's updates and the emergency stop
  // ---------------------------------------------------------------------

  /** How many of update_thrusters' three frames went out before a shutdown
      signal interrupted it. */
  type FramesSent = k: int | 0 <= k < 3

  /** One call made on the controller by its driver:
      - a control-loop tick: update_thrusters with the buttons read on that tick;
      - emergency_stop_all, run between ticks by the shutdown signal handler
        through cleanup;
      - a tick cut short: the signal handler runs cleanup, and so
        emergency_stop_all, after update_thrusters recorded its states and
        wrote `sent` of its frames; the exit it raises abandons the rest. */
  datatype Call = Update(buttons: Buttons) | EmergencyStop | Interrupted(buttons: Buttons, sent: FramesSent)
  {
    /** Whether the call runs emergency_stop_all. */
    predicate Stops() {
      !Update?
    }
  }

  /** The emergency flag after a run of calls: set once and never cleared. */
  predicate Latched(emergencyStop: bool, calls: seq<Call>) {
    emergencyStop || exists i :: 0 <= i < |calls| && calls[i].Stops()
  }

  /** One more call sets the flag iff it runs emergency_stop_all; nothing clears it. */
  lemma LatchedSnoc(emergencyStop: bool, calls: seq<Call>, call: Call)
    ensures Latched(emergencyStop, calls + [call]) == (Latched(emergencyStop, calls) || call.Stops())
  {
    var extended := calls + [call];
    assert forall i :: 0 <= i < |calls| ==> extended[i] == calls[i];
    assert extended[|calls|] == call;
  }

  /** The flag after two runs in a row is what the second leaves, starting from the first's. */
  lemma LatchedAppend(emergencyStop: bool, a: seq<Call>, b: seq<Call>)
    ensures Latched(emergencyStop, a + b) == Latched(Latched(emergencyStop, a), b)
  {
    var ab := a + b;
    assert forall i :: 0 <= i < |a| ==> ab[i] == a[i];
    assert forall i :: 0 <= i < |b| ==> ab[|a| + i] == b[i];
    if Latched(emergencyStop, ab) && !emergencyStop {
      var i :| 0 <= i < |ab| && ab[i].Stops();
      if i >= |a| {
        assert b[i - |a|].Stops();
      }
    }
  }

  /** The bytes one call writes, given the flag before it. */
  function StepFrames(emergencyStop: bool, call: Call): (frames: seq<Byte>) {
    match call
    case Update(buttons) => UpdateFrames(emergencyStop, buttons)
    case EmergencyStop => StopFrames()
    case Interrupted(buttons, sent) => PartialUpdateFrames(emergencyStop, buttons, sent) + StopFrames()
  }

  /** Every byte a run of calls writes, starting with the given flag. */
  function Emitted(emergencyStop: bool, calls: seq<Call>): (log: seq<Byte>)
    decreases |calls|
  {
    if calls == [] then []
    else
      var prefix := calls[..|calls| - 1];
      Emitted(emergencyStop, prefix) + StepFrames(Latched(emergencyStop, prefix), calls[|calls| - 1])
  }

  /** thruster_states after one call: an update, whole or cut short, records
      its resolved powers; emergency_stop_all leaves them alone. */
  function StepStates(states: map<Thruster, real>, call: Call): (after: map<Thruster, real>) {
    match call
    case EmergencyStop => states
    case Update(buttons) => ResolvedStates(states, buttons)
    case Interrupted(buttons, _) => ResolvedStates(states, buttons)
  }

  /** thruster_states after a run of calls. */
  function StatesAfter(states: map<Thruster, real>, calls: seq<Call>): (after: map<Thruster, real>)
    decreases |calls|
  {
    if calls == [] then states
    else
      StepStates(StatesAfter(states, calls[..|calls| - 1]), calls[|calls| - 1])
  }

  /** Emitted, unfolded once on a run that ends with `call`. */
  lemma EmittedSnoc(emergencyStop: bool, calls: seq<Call>, call: Call)
    ensures Emitted(emergencyStop, calls + [call]) ==
            Emitted(emergencyStop, calls) + StepFrames(Latched(emergencyStop, calls), call)
  {
    assert (calls + [call])[..|calls|] == calls;
  }

  /** Two runs in a row write the first run's bytes, then the second's
      under the flag the first one left. */
  lemma {:induction false} EmittedAppend(emergencyStop: bool, a: seq<Call>, b: seq<Call>)
    ensures Emitted(emergencyStop, a + b) == Emitted(emergencyStop, a) + Emitted(Latched(emergencyStop, a), b)
    decreases |b|
  {
    if b == [] {
      assert a + b == a;
    } else {
      var b', last := b[..|b| - 1], b[|b| - 1];
      var latched := Latched(emergencyStop, a);
      assert b == b' + [last];
      assert a + b == (a + b') + [last];
      LatchedAppend(emergencyStop, a, b');
      var step := StepFrames(Latched(latched, b'), last);
      EmittedSnoc(emergencyStop, a + b', last);
      EmittedAppend(emergencyStop, a, b');
      EmittedSnoc(latched, b', last);
      Regroup(Emitted(emergencyStop, a), Emitted(latched, b'), step);
    }
  }

  /** Proof step only: concatenation is associative. Stated once so that the
      proofs above can name the regrouping they need. */
  lemma Regroup(x: seq<Byte>, y: seq<Byte>, z: seq<Byte>)
    ensures (x + y) + z == x + (y + z)
  {
  }

  /** Each kind of call writes only safe frames, and only neutral ones while latched. */
  lemma SafeStepFrames(emergencyStop: bool, call: Call)
    ensures SafeLog(emergencyStop, StepFrames(emergencyStop, call))
  {
    SafeStopFrames();
    match call
    case Update(buttons) =>
      SafeUpdateFrames(emergencyStop, buttons);
    case EmergencyStop =>
    case Interrupted(buttons, sent) =>
      SafePartialUpdate(emergencyStop, buttons, sent);
      SafeLogAppend(emergencyStop, PartialUpdateFrames(emergencyStop, buttons, sent), StopFrames());
  }

  /** Whatever the calls, everything a run writes is thruster set-target
      frames within 1100..1900 us, and all of them neutral if the run
      starts latched. */
  lemma {:induction false} EmittedIsSafe(emergencyStop: bool, calls: seq<Call>)
    ensures SafeLog(emergencyStop, Emitted(emergencyStop, calls))
    decreases |calls|
  {
    if calls != [] {
      var prefix, last := calls[..|calls| - 1], calls[|calls| - 1];
      var latched := Latched(emergencyStop, prefix);
      assert calls == prefix + [last];
      EmittedSnoc(emergencyStop, prefix, last);
      EmittedIsSafe(emergencyStop, prefix);
      SafeStepFrames(latched, last);
      SafeLogAppend(emergencyStop, Emitted(emergencyStop, prefix), StepFrames(latched, last));
    }
  }

  /** Once the flag is set, every later call, whatever the buttons, writes
      only neutral frames. */
  lemma LatchedEmitsOnlyNeutral(calls: seq<Call>)
    ensures TargetFrames(Emitted(true, calls), MicrosecondsToTarget(PWM_NEUTRAL), MicrosecondsToTarget(PWM_NEUTRAL))
  {
    EmittedIsSafe(true, calls);
  }

  /** A call that runs emergency_stop_all, whether between ticks or cutting
      one short, latches the flag for good: the run writes what came before,
      whatever part of the cut-short update went out, the 12 neutral stop
      bytes, and from then on only neutral frames. */
  lemma StopIsFinal(emergencyStop: bool, before: seq<Call>, call: Call, after: seq<Call>)
    requires call.Stops()
    ensures Latched(emergencyStop, before + [call] + after)
    ensures Emitted(emergencyStop, before + [call] + after) ==
            Emitted(emergencyStop, before) +
            (if call.Interrupted? then PartialUpdateFrames(Latched(emergencyStop, before), call.buttons, call.sent) else []) +
            StopFrames() +
            Emitted(true, after)
    ensures TargetFrames(Emitted(true, after), MicrosecondsToTarget(PWM_NEUTRAL), MicrosecondsToTarget(PWM_NEUTRAL))
  {
    var upToStop := before + [call];
    var cut := if call.Interrupted? then PartialUpdateFrames(Latched(emergencyStop, before), call.buttons, call.sent) else [];
    LatchedSnoc(emergencyStop, before, call);
    LatchedAppend(emergencyStop, upToStop, after);
    EmittedAppend(emergencyStop, upToStop, after);
    EmittedSnoc(emergencyStop, before, call);
    assert StepFrames(Latched(emergencyStop, before), call) == cut + StopFrames();
    Regroup(Emitted(emergencyStop, before), cut, StopFrames());
    LatchedEmitsOnlyNeutral(after);
  }

  // ---------------------------------------------------------------------
  // The controller object
  // ---------------------------------------------------------------------

  class RovController {
    const maestro: Controller
    /** Last commanded power per thruster. */
    var thrusterStates: map<Thruster, real>
    /** The safety latch: set by EmergencyStopAll, never cleared. */
    var emergencyStop: bool

    /** Opening the serial port and setting up the GPIO pins are not part of
        this model; the Maestro keeps its default device number. */
    constructor()
      ensures fresh(maestro) && maestro.log == [] && maestro.deviceNumber == DEFAULT_DEVICE_NUMBER
      ensures thrusterStates == map[H1 := 0.0, H2 := 0.0, V := 0.0]
      ensures !emergencyStop
    {
      maestro := new Controller(DEFAULT_DEVICE_NUMBER);
      thrusterStates := map[H1 := 0.0, H2 := 0.0, V := 0.0];
      emergencyStop := false;
    }

    /** set_thruster_pwm: one set-target frame for `channel`, neutral while latched. */
    method SetThrusterPwm(channel: int, power: real) returns (ok: bool)
      modifies maestro
      ensures ok == IsByte(channel)
      ensures maestro.log == old(maestro.log) + (if ok then ThrusterFrame(channel, emergencyStop, power) else [])
    {
      var p := power;
      if emergencyStop {
        p := 0.0;
      }
      var microseconds := PowerToPulse(p);
      var target := MicrosecondsToTarget(microseconds);
      ok := maestro.SetTarget(channel, target);
    }

    /** The three set_thruster_pwm calls that end update_thrusters and
        emergency_stop_all: channels 0, 1, 2 in that order. */
    method SetAllThrusters(h1Power: real, h2Power: real, vPower: real)
      modifies maestro
      ensures maestro.log == old(maestro.log) + AllThrusterFrames(emergencyStop, h1Power, h2Power, vPower)
    {
      ghost var before := maestro.log;
      ghost var f0 := ThrusterFrame(THRUSTER_HORIZONTAL_1, emergencyStop, h1Power);
      ghost var f1 := ThrusterFrame(THRUSTER_HORIZONTAL_2, emergencyStop, h2Power);
      ghost var f2 := ThrusterFrame(THRUSTER_VERTICAL, emergencyStop, vPower);
      var ok := SetThrusterPwm(THRUSTER_HORIZONTAL_1, h1Power);
      ok := SetThrusterPwm(THRUSTER_HORIZONTAL_2, h2Power);
      ok := SetThrusterPwm(THRUSTER_VERTICAL, vPower);
      assert maestro.log == ((before + f0) + f1) + f2;
      Regroup(before, f0, f1);
      Regroup(before, f0 + f1, f2);
    }

    /** update_thrusters, with the buttons read on this tick passed in. */
    method UpdateThrusters(buttons: Buttons)
      modifies this, maestro
      ensures emergencyStop == old(emergencyStop)
      ensures thrusterStates == ResolvedStates(old(thrusterStates), buttons)
      ensures maestro.log == old(maestro.log) + UpdateFrames(emergencyStop, buttons)
    {
      var h1Power := ResolveAxis(buttons.h1Forward, buttons.h1Back);
      var h2Power := ResolveAxis(buttons.h2Forward, buttons.h2Back);
      var vPower := ResolveAxis(buttons.vUp, buttons.vDown);

      RecordStates(h1Power, h2Power, vPower);
      SetAllThrusters(h1Power, h2Power, vPower);
    }

    /** The "Update thruster states" step of update_thrusters. */
    method RecordStates(h1Power: real, h2Power: real, vPower: real)
      modifies this`thrusterStates
      ensures thrusterStates == old(thrusterStates)[H1 := h1Power][H2 := h2Power][V := vPower]
    {
      thrusterStates := thrusterStates[H1 := h1Power];
      thrusterStates := thrusterStates[H2 := h2Power];
      thrusterStates := thrusterStates[V := vPower];
    }

    /** The first `sent` set_thruster_pwm calls of update_thrusters. */
    method SendFirstFrames(buttons: Buttons, sent: FramesSent)
      modifies maestro
      ensures maestro.log == old(maestro.log) + PartialUpdateFrames(emergencyStop, buttons, sent)
    {
      ghost var before := maestro.log;
      ghost var f0 := ThrusterFrame(THRUSTER_HORIZONTAL_1, emergencyStop, ResolveAxis(buttons.h1Forward, buttons.h1Back));
      ghost var f1 := ThrusterFrame(THRUSTER_HORIZONTAL_2, emergencyStop, ResolveAxis(buttons.h2Forward, buttons.h2Back));
      if sent >= 1 {
        var ok := SetThrusterPwm(THRUSTER_HORIZONTAL_1, ResolveAxis(buttons.h1Forward, buttons.h1Back));
      }
      if sent == 2 {
        var ok := SetThrusterPwm(THRUSTER_HORIZONTAL_2, ResolveAxis(buttons.h2Forward, buttons.h2Back));
        Regroup(before, f0, f1);
      }
    }

    /** update_thrusters interrupted by the shutdown signal after its states
        were recorded and `sent` frames written: cleanup runs
        emergency_stop_all, and the rest of the update never runs. */
    method UpdateInterruptedByStop(buttons: Buttons, sent: FramesSent)
      modifies this, maestro
      ensures emergencyStop
      ensures thrusterStates == ResolvedStates(old(thrusterStates), buttons)
      ensures maestro.log == old(maestro.log) + PartialUpdateFrames(old(emergencyStop), buttons, sent) + StopFrames()
    {
      RecordStates(ResolveAxis(buttons.h1Forward, buttons.h1Back),
                   ResolveAxis(buttons.h2Forward, buttons.h2Back),
                   ResolveAxis(buttons.vUp, buttons.vDown));
      SendFirstFrames(buttons, sent);
      EmergencyStopAll();
    }

    /** emergency_stop_all: latch the flag, then neutral on every channel. */
    method EmergencyStopAll()
      modifies this, maestro
      ensures emergencyStop
      ensures thrusterStates == old(thrusterStates)
      ensures maestro.log == old(maestro.log) + StopFrames()
    {
      emergencyStop := true;
      SetAllThrusters(0.0, 0.0, 0.0);
    }

    /** One call of the driver on the controller. */
    method RunCall(call: Call)
      modifies this, maestro
      ensures emergencyStop == (old(emergencyStop) || call.Stops())
      ensures thrusterStates == StepStates(old(thrusterStates), call)
      ensures maestro.log == old(maestro.log) + StepFrames(old(emergencyStop), call)
    {
      match call {
        case Update(buttons) => UpdateThrusters(buttons);
        case EmergencyStop => EmergencyStopAll();
        case Interrupted(buttons, sent) => UpdateInterruptedByStop(buttons, sent);
      }
    }

    /** The driver's loop: each tick calls update_thrusters; the shutdown
        signal calls emergency_stop_all through cleanup, between ticks or in
        the middle of one. */
    method ControlLoop(calls: seq<Call>)
      modifies this, maestro
      ensures emergencyStop == Latched(old(emergencyStop), calls)
      ensures thrusterStates == StatesAfter(old(thrusterStates), calls)
      ensures maestro.log == old(maestro.log) + Emitted(old(emergencyStop), calls)
    {
      var i := 0;
      while i < |calls|
        invariant 0 <= i <= |calls|
        invariant emergencyStop == Latched(old(emergencyStop), calls[..i])
        invariant thrusterStates == StatesAfter(old(thrusterStates), calls[..i])
        invariant maestro.log == old(maestro.log) + Emitted(old(emergencyStop), calls[..i])
        decreases |calls| - i
      {
        ghost var done := calls[..i];
        assert calls[..i + 1] == done + [calls[i]];
        EmittedSnoc(old(emergencyStop), done, calls[i]);
        LatchedSnoc(old(emergencyStop), done, calls[i]);
        RunCall(calls[i]);
        Regroup(old(maestro.log), Emitted(old(emergencyStop), done), StepFrames(Latched(old(emergencyStop), done), calls[i]));
        i := i + 1;
      }
      assert calls[..i] == calls;
    }
  }
}
