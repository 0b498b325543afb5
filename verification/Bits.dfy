/** What OR-ing a one-bit mask into a byte does to its bits. */
module Bits {
  import opened MqttTypes

  const MASKS: set<byte> := {1, 2, 4, 8, 16, 32, 64, 128}

  /** Bit by bit from the right: a bit of the byte is the next lower bit of its half. */
  lemma HalfBit(b: byte, m: byte)
    requires m in {1, 2, 4, 8, 16, 32, 64}
    ensures b / (2 * m) == b / 2 / m
  {
    if m == 1 {
    } else if m == 2 {
    } else if m == 4 {
    } else if m == 8 {
    } else if m == 16 {
    } else if m == 32 {
    }
  }

  lemma HalfOr(b: byte, m: byte)
    requires m in {1, 2, 4, 8, 16, 32, 64}
    ensures OrBit(b, 2 * m) / 2 == OrBit(b / 2, m) && OrBit(b, 2 * m) % 2 == b % 2
  {
    HalfBit(b, m);
    assert (b + 2 * m) / 2 == b / 2 + m;
  }

  /** It sets its own bit and leaves the others as they are. */
  lemma {:induction false} OrBitEffect(b: byte, mask: byte, other: byte)
    requires mask in MASKS && other in MASKS
    ensures BitSet(OrBit(b, mask), other) <==> other == mask || BitSet(b, other)
    decreases mask
  {
    if mask == 1 {
      if other != 1 {
        HalfBit(b, other / 2);
        HalfBit(OrBit(b, 1), other / 2);
        assert OrBit(b, 1) / 2 == b / 2;
      }
    } else {
      HalfOr(b, mask / 2);
      if other != 1 {
        HalfBit(b, other / 2);
        HalfBit(OrBit(b, mask), other / 2);
        OrBitEffect(b / 2, mask / 2, other / 2);
      }
      hide OrBit;
    }
  }
}
