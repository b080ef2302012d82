/** Types shared by the supervisor, the LED adapter and the discovery registry. */
module Common {

  /** A value C may leave NULL, or an optional value. */
  datatype Option<+T> = None | Some(value: T)

  /** uint8_t */
  type Byte = x: int | 0 <= x < 256

  const U32Modulus: int := 0x1_0000_0000
  /** uint32_t, also FreeRTOS's TickType_t on this platform */
  type U32 = x: int | 0 <= x < 0x1_0000_0000

  const U64Modulus: int := 0x1_0000_0000_0000_0000
  /** uint64_t */
  type U64 = x: int | 0 <= x < 0x1_0000_0000_0000_0000

  /**
   * The classification json_str_as_logic_state gives to a command argument.
   * Only STATE_ON and STATE_TOGGLE are distinguished by the code; StateOff stands for
   * every other classification.
   */
  datatype LogicState = StateOn | StateToggle | StateOff

  function Min(a: int, b: int): int { if a <= b then a else b }

  /**
   * What a bounded C string copy keeps of `s` (strncpy plus terminator,
   * snprintf): its first `max` characters, `max` being the buffer size less one.
   */
  function Truncate(s: string, max: nat): (t: string)
    ensures |t| == Min(|s|, max) && t == s[..|t|]
  {
    if |s| <= max then s else s[..max]
  }
}
