/**
 * Fixed-width integers, wrapping millisecond time and the control payload
 * that both nodes declare as `struct controlState { int8_t dir; uint8_t button; }`.
 */
module Wire {
  import opened Wrappers

  /** 2^32: `millis()`, `uint32_t` and the 32-bit `unsigned long` of the ESP32 wrap here. */
  const TWO_32: int := 0x1_0000_0000

  type Byte = b: int | 0 <= b < 256
  type Int8 = d: int | -128 <= d < 128
  type U32 = t: int | 0 <= t < 0x1_0000_0000

  /** `sizeof(controlState)`: one `int8_t` and one `uint8_t`, no padding. */
  const CONTROL_STATE_SIZE: nat := 2

  /** Unsigned 32-bit `now - since`: the time elapsed since `since`, across a wrap of the counter. */
  function Elapsed(now: U32, since: U32): (r: U32)
    ensures now >= since ==> r == now - since
    ensures now < since ==> r == now + (TWO_32 - since)
  {
    (now - since) % TWO_32
  }

  /** Unsigned 32-bit `t + d`: the counter value `d` milliseconds after `t`. */
  function AddWrap(t: U32, d: nat): (r: U32)
    ensures t + d < TWO_32 ==> r == t + d
  {
    (t + d) % TWO_32
  }

  /** Subtraction undoes addition modulo 2^32: `d` ms after `t` the elapsed time is `d`, wrap or not. */
  lemma ElapsedAfterAdvance(t: U32, d: U32)
    ensures Elapsed(AddWrap(t, d), t) == d
  {
  }

  /** The remote-control reading: a direction code and a button flag. */
  datatype ControlState = ControlState(dir: Int8, button: Byte)

  /** The byte that holds an `int8_t` (two's complement). */
  function ToByte(d: Int8): (b: Byte)
    ensures b % 256 == d % 256
    ensures (d < 0) == (b >= 128)
  {
    if d < 0 then d + 256 else d
  }

  /** An `int8_t` read back from its byte (two's complement). */
  function FromByte(b: Byte): (d: Int8)
    ensures d % 256 == b
    ensures ToByte(d) == b
  {
    if b >= 128 then b - 256 else b
  }

  /** The wire image of a control state: `dir`, then `button`, exactly as `memcpy` lays them out. */
  function Encode(s: ControlState): (bytes: seq<Byte>)
    ensures |bytes| == CONTROL_STATE_SIZE
    ensures FromByte(bytes[0]) == s.dir && bytes[1] == s.button
  {
    [ToByte(s.dir), s.button]
  }

  /**
   * Reads a received payload back into a control state. Only a payload of
   * exactly `sizeof(controlState)` bytes is a control state; no range check
   * is applied to either field.
   */
  function Decode(bytes: seq<Byte>): (r: Option<ControlState>)
    ensures r.Some? <==> |bytes| == CONTROL_STATE_SIZE
    ensures r.Some? ==> r.value.button == bytes[1] && r.value.dir % 256 == bytes[0]
    ensures r.Some? ==> Encode(r.value) == bytes
  {
    if |bytes| != CONTROL_STATE_SIZE then None
    else Some(ControlState(FromByte(bytes[0]), bytes[1]))
  }

  /** The camera node reads back exactly what the controller node sent. */
  lemma DecodeEncode(s: ControlState)
    ensures Decode(Encode(s)) == Some(s)
  {
  }

  /** Two distinct control states never share a wire image. */
  lemma EncodeInjective(s: ControlState, t: ControlState)
    requires Encode(s) == Encode(t)
    ensures s == t
  {
  }
}
