/** The fixed-width numbers of the wire format and the counters. */
module Words {
  type byte = x: int | 0 <= x < 0x100
  type int8 = x: int | -128 <= x < 128
  type uint16 = x: int | 0 <= x < 0x1_0000
  type uint32 = x: int | 0 <= x < 0x1_0000_0000
  type uint64 = x: int | 0 <= x < 0x1_0000_0000_0000_0000
}
