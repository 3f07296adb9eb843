/** The Pololu Maestro serial protocol, as spoken by `Controller` in
    controller/software/maestro.py: 4-byte set-target / set-speed /
    set-acceleration frames whose value is split into two 7-bit bytes, a
    2-byte get-position request with a 2-byte little-endian reply, a 1-byte
    go-home command, and the conversion between microseconds and the
    protocol's quarter-microsecond units.

    The serial link is modelled as the sequence of every byte written to it. */
module Maestro {

  /** One byte on the serial link. Python's `bytes([...])` accepts exactly these values. */
  type Byte = b: int | 0 <= b < 256

  datatype Option<T> = None | Some(value: T)

  const SET_TARGET: Byte := 0x84
  const SET_SPEED: Byte := 0x87
  const SET_ACCELERATION: Byte := 0x89
  const GET_POSITION: Byte := 0x90
  const GO_HOME: Byte := 0xA2

  /** The device number Controller uses when none is given. */
  const DEFAULT_DEVICE_NUMBER: int := 0x0C

  /** A frame carries a 14-bit value: two bytes of 7 bits each. */
  const VALUE_MODULUS: int := 16384

  /** Whether `bytes([...])` accepts `x`; any other channel number raises ValueError. */
  predicate IsByte(x: int) {
    0 <= x < 256
  }

  /** `value & 0x7F`. On Python's unbounded two's-complement integers this is
      the floored remainder, which is what Dafny's `%` computes, negative
      values included. */
  function Low7(value: int): (low: Byte) {
    value % 128
  }

  /** `(value >> 7) & 0x7F`. The arithmetic shift floors, as Dafny's `/` does
      for a positive divisor. */
  function High7(value: int): (high: Byte) {
    (value / 128) % 128
  }

  /** The 4-byte frame `[opcode, channel, low 7 bits, next 7 bits]` that
      setTarget, setSpeed and setAcceleration write. */
  function Command(opcode: Byte, channel: Byte, value: int): (frame: seq<Byte>)
    ensures |frame| == 4 && frame[0] == opcode && frame[1] == channel
    ensures frame[2] < 128 && frame[3] < 128
  {
    [opcode, channel, Low7(value), High7(value)]
  }

  /** The value a Maestro reads out of a 4-byte frame: low bits first. */
  function FrameValue(frame: seq<Byte>): (value: int)
    requires |frame| == 4
  {
    frame[2] as int + 128 * frame[3] as int
  }

  /** Splitting into 7+7 bits keeps exactly the low 14 bits of the value. */
  lemma SplitKeepsLow14(value: int)
    ensures Low7(value) + 128 * High7(value) == value % VALUE_MODULUS
  {
    var q, r := value / 128, value % 128;
    var q2, r2 := q / 128, q % 128;
    assert value == 128 * q + r;
    assert q == 128 * q2 + r2;
    assert value == VALUE_MODULUS * q2 + (128 * r2 + r);
    assert 0 <= 128 * r2 + r < VALUE_MODULUS;
  }

  /** Decoding a frame gives back the value modulo 2^14, for every integer value. */
  lemma CommandRoundTrip(opcode: Byte, channel: Byte, value: int)
    ensures FrameValue(Command(opcode, channel, value)) == value % VALUE_MODULUS
  {
    SplitKeepsLow14(value);
  }

  /** Within the 14-bit range the frame carries the value exactly. */
  lemma CommandRoundTripInRange(opcode: Byte, channel: Byte, value: int)
    requires 0 <= value < VALUE_MODULUS
    ensures FrameValue(Command(opcode, channel, value)) == value
  {
    CommandRoundTrip(opcode, channel, value);
  }

  /** Bits above the low 14 are silently dropped: the frame depends only on value mod 2^14. */
  lemma CommandDropsHighBits(opcode: Byte, channel: Byte, value: int)
    ensures Command(opcode, channel, value) == Command(opcode, channel, value % VALUE_MODULUS)
  {
    var m := value % VALUE_MODULUS;
    SplitKeepsLow14(value);
    SplitKeepsLow14(m);
    assert Low7(value) == Low7(m) by {
      assert value == VALUE_MODULUS * (value / VALUE_MODULUS) + m;
      assert value == 128 * (128 * (value / VALUE_MODULUS)) + m;
    }
  }

  /** Two values in the 14-bit range give the same frame only if they are equal. */
  lemma CommandInjective(opcode: Byte, channel: Byte, v: int, w: int)
    requires 0 <= v < VALUE_MODULUS && 0 <= w < VALUE_MODULUS
    requires Command(opcode, channel, v) == Command(opcode, channel, w)
    ensures v == w
  {
    CommandRoundTripInRange(opcode, channel, v);
    CommandRoundTripInRange(opcode, channel, w);
  }

  /** The documented scenario: neutral 6000 is sent as low byte 0x70, high byte 0x2E. */
  lemma NeutralTargetBytes(channel: Byte)
    ensures Command(SET_TARGET, channel, 6000) == [0x84, channel, 0x70, 0x2E]
  {
  }

  /** The reply to a get-position request: 2 bytes, `response[0] + (response[1] << 8)`;
      a reply of any other length yields None. */
  function DecodePosition(response: seq<Byte>): (position: Option<int>)
    ensures position.Some? <==> |response| == 2
    ensures position.Some? ==> 0 <= position.value < 65536
  {
    if |response| == 2 then Some(response[0] as int + response[1] as int * 256) else None
  }

  /** The 2-byte reply a Maestro sends for a 16-bit position: low byte first. */
  function PositionReply(position: int): (response: seq<Byte>)
    requires 0 <= position < 65536
    ensures |response| == 2
  {
    [position % 256, position / 256]
  }

  /** The reply a Maestro sends for any 16-bit position decodes back to it. */
  lemma PositionRoundTrip(position: int)
    requires 0 <= position < 65536
    ensures DecodePosition(PositionReply(position)) == Some(position)
  {
  }

  /** Every 2-byte reply is the encoding of the position it decodes to. */
  lemma ReplyRoundTrip(response: seq<Byte>)
    requires |response| == 2
    ensures DecodePosition(response).Some?
    ensures PositionReply(DecodePosition(response).value) == response
  {
    var p := response[0] as int + response[1] as int * 256;
    assert p % 256 == response[0] && p / 256 == response[1];
  }

  /** `int(microseconds * 4)` for whole microseconds. */
  function MicrosecondsToTarget(microseconds: int): (target: int) {
    microseconds * 4
  }

  /** `target / 4.0`. */
  function TargetToMicroseconds(target: int): (microseconds: real) {
    target as real / 4.0
  }

  /** Converting whole microseconds to quarter-microseconds and back is the identity,
      and every target obtained this way is a multiple of 4. */
  lemma MicrosecondsRoundTrip(microseconds: int)
    ensures TargetToMicroseconds(MicrosecondsToTarget(microseconds)) == microseconds as real
    ensures MicrosecondsToTarget(microseconds) % 4 == 0
  {
  }

  /** The documented ESC scenarios: 1000, 1500 and 2000 microseconds are 4000, 6000 and 8000. */
  lemma EscTargets()
    ensures MicrosecondsToTarget(1000) == 4000
    ensures MicrosecondsToTarget(1500) == 6000
    ensures MicrosecondsToTarget(2000) == 8000
    ensures TargetToMicroseconds(6000) == 1500.0
  {
  }

  /** A connection to one Maestro. `log` is every byte written to the serial
      link, oldest first; opening the port is not part of this model. */
  class Controller {
    var log: seq<Byte>
    /** Stored as in the source; the compact protocol's frames do not carry it. */
    const deviceNumber: int

    constructor(deviceNumber: int)
      ensures this.deviceNumber == deviceNumber
      ensures log == []
    {
      this.deviceNumber := deviceNumber;
      log := [];
    }

    /** setTarget: append `[0x84, channel, low7, high7]`. A channel outside
        0..255 makes `bytes` raise, and nothing is written (`ok` is false). */
    method SetTarget(channel: int, target: int) returns (ok: bool)
      modifies this
      ensures ok == IsByte(channel)
      ensures log == old(log) + (if ok then Command(SET_TARGET, channel, target) else [])
    {
      if !IsByte(channel) {
        return false;
      }
      log := log + Command(SET_TARGET, channel, target);
      ok := true;
    }

    /** setSpeed: the same 7+7 split with opcode 0x87. */
    method SetSpeed(channel: int, speed: int) returns (ok: bool)
      modifies this
      ensures ok == IsByte(channel)
      ensures log == old(log) + (if ok then Command(SET_SPEED, channel, speed) else [])
    {
      if !IsByte(channel) {
        return false;
      }
      log := log + Command(SET_SPEED, channel, speed);
      ok := true;
    }

    /** setAcceleration: the same 7+7 split with opcode 0x89. */
    method SetAcceleration(channel: int, acceleration: int) returns (ok: bool)
      modifies this
      ensures ok == IsByte(channel)
      ensures log == old(log) + (if ok then Command(SET_ACCELERATION, channel, acceleration) else [])
    {
      if !IsByte(channel) {
        return false;
      }
      log := log + Command(SET_ACCELERATION, channel, acceleration);
      ok := true;
    }

    /** getPosition: write `[0x90, channel]`, then decode `response`, the
        bytes the read of 2 bytes returned (fewer on a timeout). */
    method GetPosition(channel: int, response: seq<Byte>) returns (ok: bool, position: Option<int>)
      modifies this
      ensures ok == IsByte(channel)
      ensures log == old(log) + (if ok then [GET_POSITION, channel as Byte] else [])
      ensures position == (if ok then DecodePosition(response) else None)
    {
      if !IsByte(channel) {
        return false, None;
      }
      log := log + [GET_POSITION, channel as Byte];
      ok := true;
      position := DecodePosition(response);
    }

    /** goHome: the single byte 0xA2. */
    method GoHome()
      modifies this
      ensures log == old(log) + [GO_HOME]
    {
      log := log + [GO_HOME];
    }
  }
}
