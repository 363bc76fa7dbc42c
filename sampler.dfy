/** The touch controller's command set, the decoding of its three-byte answer
    and the pressure test of `is_touched`. */
module Sampler {
  import opened Transport

  /** Command bytes selecting the controller's four conversion channels. */
  const CMD_READ_X: byte := 0xD0
  const CMD_READ_Y: byte := 0x90
  const CMD_READ_Z1: byte := 0xB0
  const CMD_READ_Z2: byte := 0xC0

  /** Pressure thresholds of the touch test. */
  const Z1_THRESHOLD: u16 := 10
  const Z2_THRESHOLD: u16 := 2000

  /** The transmitted frame: the command byte followed by two zero bytes that clock
      the answer in. */
  function CommandFrame(command: byte): Frame
  {
    [command, 0, 0]
  }

  function Pow2(k: nat): (p: nat)
    ensures p >= 1
  {
    if k == 0 then 1 else 2 * Pow2(k - 1)
  }

  lemma ByteShift()
    ensures Pow2(8) == 256
  {
  }

  /** C's `|` on non-negative `int` values, bit by bit from the least significant. */
  function BitOr(a: nat, b: nat): nat
    decreases a + b
  {
    if a == 0 then b
    else if b == 0 then a
    else 2 * BitOr(a / 2, b / 2) + (if a % 2 == 1 || b % 2 == 1 then 1 else 0)
  }

  /** Or-ing a value below `2^k` into a multiple of `2^k` is addition: the operands
      share no bit. */
  lemma {:induction false} OrDisjoint(a: nat, b: nat, k: nat)
    requires b < Pow2(k)
    ensures BitOr(a * Pow2(k), b) == a * Pow2(k) + b
  {
    var high := a * Pow2(k);
    if k == 0 {
      assert b == 0;
    } else if high != 0 && b != 0 {
      assert high == 2 * (a * Pow2(k - 1));
      assert high / 2 == a * Pow2(k - 1) && high % 2 == 0;
      OrDisjoint(a, b / 2, k - 1);
      assert BitOr(high, b) == 2 * BitOr(high / 2, b / 2) + b % 2;
    }
  }

  /** The 12-bit sample rebuilt from the second and third received bytes:
      `((rx[1] << 8) | rx[2]) >> 4` in promoted `int` arithmetic (the shifts of a
      non-negative `int` are a multiplication by 256 and a division by 16),
      truncated to `uint16_t`. */
  function DecodeSample(rx: Frame): (sample: u16)
    ensures sample == rx[1] as int * 16 + rx[2] as int / 16
    ensures sample <= 4095
  {
    var hi, lo := rx[1] as int, rx[2] as int;
    ByteShift();
    OrDisjoint(hi, lo, 8);
    DropNibble(hi, lo);
    var word := BitOr(hi * 256, lo);
    assert word == hi * 256 + lo;
    assert word / 16 == hi * 16 + lo / 16 <= 4095;
    (word / 16) % 0x1_0000
  }

  /** `(hi * 256 + lo) / 16 == hi * 16 + lo / 16` for a byte `lo`. */
  lemma DropNibble(hi: int, lo: int)
    requires 0 <= lo < 256
    ensures (hi * 256 + lo) / 16 == hi * 16 + lo / 16
  {
    assert hi * 256 + lo == (hi * 16 + lo / 16) * 16 + lo % 16;
  }

  /** A frame whose decoding is a given 12-bit value: the value's high eight bits in
      the second byte and its low four bits in the top of the third, above a filler
      nibble the decoding throws away. */
  function ResponseFor(value: nat, command: byte, filler: nat): (rx: Frame)
    requires value <= 4095 && filler < 16
    ensures DecodeSample(rx) == value
  {
    [command, value / 16, (value % 16) * 16 + filler]
  }

  /** The value `read_touch` returns for one transport answer: the decoded sample on
      success and the sentinel 0 on failure. */
  function SampleOf(reply: Reply): (sample: u16)
    ensures sample <= 4095
    ensures !reply.ok ==> sample == 0
  {
    if reply.ok then DecodeSample(reply.rx) else 0
  }

  /** The pressure test of `is_touched`. */
  predicate TouchDetected(z1: u16, z2: u16)
  {
    z1 > Z1_THRESHOLD && z2 < Z2_THRESHOLD
  }

  /** The command byte of a frame plays no part in its decoding. */
  lemma DecodeIgnoresFirstByte(a: Frame, b: Frame)
    requires a[1] == b[1] && a[2] == b[2]
    ensures DecodeSample(a) == DecodeSample(b)
  {
  }

  /** The four boundary pairs {10, 11} x {1999, 2000}. */
  lemma TouchBoundaries()
    ensures TouchDetected(11, 1999)
    ensures !TouchDetected(10, 1999)
    ensures !TouchDetected(11, 2000)
    ensures !TouchDetected(10, 2000)
  {
  }

  /** A failed Z2 read yields the sentinel 0, which passes the Z2 test: a good Z1
      sample above the threshold then reports a touch. */
  lemma FailedZ2StillTouches(z1: Reply, z2: Reply)
    requires !z2.ok && SampleOf(z1) > Z1_THRESHOLD
    ensures TouchDetected(SampleOf(z1), SampleOf(z2))
  {
  }
}
