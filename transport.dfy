/** Value types shared by the touch-panel core: C's `uint16_t`, the three-byte
    SPI frame and the scripted answer of the SPI transport. */
module Transport {

  /** C's `uint16_t`. */
  type u16 = x: int | 0 <= x < 0x1_0000

  /** C's `int`, 32-bit two's complement: the type `uint16_t` operands are promoted to. */
  const INT_MAX: int := 0x7FFF_FFFF

  /** C's `uint8_t`. */
  type byte = x: int | 0 <= x < 0x100

  /** The three-byte transmit or receive buffer of one touch-controller exchange. */
  type Frame = s: seq<byte> | |s| == 3 witness [0, 0, 0]

  /** What the transport answers to one `XSpi_Transfer`: success or failure, and the
      bytes clocked in on success. The hardware is not modelled; a caller supplies
      any answer it likes, which makes the transport nondeterministic. */
  datatype Reply = Reply(ok: bool, rx: Frame)
}
