/** The capacity check of `writeToBuffer` (ezh.h:100), done in `size_t`. */
module Capacity {

  /** The largest `size_t` on a 64-bit target. */
  const SIZE_MAX: nat := 0xFFFF_FFFF_FFFF_FFFF

  type SizeT = n: nat | n <= SIZE_MAX

  /** Unsigned `size_t` addition: the mathematical sum modulo 2^64. */
  function AddSizeT(a: SizeT, b: SizeT): (r: SizeT)
    ensures r == (a + b) % (SIZE_MAX + 1)
  {
    if a + b <= SIZE_MAX then a + b else a + b - (SIZE_MAX + 1)
  }

  /** The check as written: `offset + requiredSize > buffer.size()`, with the
      addition wrapping around. It compares the sum modulo 2^64, and it never
      throws for a payload that fits. */
  function TooSmallAsWritten(offset: SizeT, required: SizeT, size: SizeT): (thrown: bool)
    ensures thrown <==> (offset + required) % (SIZE_MAX + 1) > size
    ensures thrown ==> offset + required > size
  {
    AddSizeT(offset, required) > size
  }

  /** The as-written check lets an offset near SIZE_MAX through: with offset
      SIZE_MAX, one 4-byte argument and a 10-byte buffer the sum wraps to 3, the
      check passes, and the copy would start far outside the buffer. */
  lemma AsWrittenMissesWrap()
    ensures !TooSmallAsWritten(SIZE_MAX, 4, 10)
    ensures SIZE_MAX + 4 > 10
  {
  }

  /** Every offset whose sum with the payload wraps past SIZE_MAX to at most the
      buffer size is accepted by the as-written check although the write would
      not fit. */
  lemma AsWrittenAcceptsWrapped(offset: SizeT, required: SizeT, size: SizeT)
    requires offset + required > SIZE_MAX
    requires offset + required - (SIZE_MAX + 1) <= size
    ensures !TooSmallAsWritten(offset, required, size)
    ensures offset + required > size
  {
  }

  /** The check the code intends, written so that no `size_t` operation wraps:
      the subtraction happens only once `offset <= size` is known. */
  function TooSmall(offset: SizeT, required: SizeT, size: SizeT): (r: bool)
    ensures r <==> offset + required > size
  {
    offset > size || required > size - offset
  }

  /** Whenever the sum does not wrap, the as-written check and the intended one
      agree, so the correction changes nothing for any offset the code handles. */
  lemma AsWrittenAgreesWithoutWrap(offset: SizeT, required: SizeT, size: SizeT)
    requires offset + required <= SIZE_MAX
    ensures TooSmallAsWritten(offset, required, size) == TooSmall(offset, required, size)
  {
  }
}
