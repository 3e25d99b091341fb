/** The bits of a register and the operations on them (AccessorBit, src/evok/modbus/client.py). */
module Bits {
  /** Writing 1 sets the bits of the mask, 0 clears them. */
  datatype BitOp = BitOp(mask: bv16, on: bool)

  function Apply(op: BitOp, w: bv16): bv16 {
    if op.on then w | op.mask else w & !op.mask
  }

  /** The bits of the mask are set or cleared. */
  lemma MaskIsWritten(op: BitOp, w: bv16)
    ensures Apply(op, w) & op.mask == if op.on then op.mask else 0
  {
    if op.on {
      SetBits(w, op.mask);
    } else {
      ClearedBits(w, op.mask);
    }
  }

  /** The others stay. */
  lemma OthersStay(op: BitOp, w: bv16)
    ensures Apply(op, w) & !op.mask == w & !op.mask
  {
    if op.on {
      SetBits(w, op.mask);
    } else {
      ClearedBits(w, op.mask);
    }
  }

  lemma SetBits(w: bv16, m: bv16)
    ensures (w | m) & !m == w & !m && (w | m) & m == m
  {
  }

  lemma ClearedBits(w: bv16, m: bv16)
    ensures (w & !m) & !m == w & !m && (w & !m) & m == 0
  {
  }

  /** A word with one bit. */
  predicate IsBit(b: bv16) {
    b != 0 && b & (b - 1) == 0
  }

  lemma InMaskOrNot(m: bv16, b: bv16)
    requires IsBit(b)
    ensures m & b == 0 || m & b == b
  {
  }

  lemma BitOfSet(w: bv16, m: bv16, b: bv16)
    ensures m & b == b ==> (w | m) & b == b
    ensures m & b == 0 ==> (w | m) & b == w & b
  {
  }

  lemma BitOfCleared(w: bv16, m: bv16, b: bv16)
    ensures m & b == b ==> (w & !m) & b == 0
    ensures m & b == 0 ==> (w & !m) & b == w & b
  {
  }

  lemma AppliedInMask(op: BitOp, w: bv16, b: bv16)
    requires op.mask & b == b
    ensures Apply(op, w) & b == if op.on then b else 0
  {
    if op.on {
      BitOfSet(w, op.mask, b);
    } else {
      BitOfCleared(w, op.mask, b);
    }
  }

  lemma AppliedOutOfMask(op: BitOp, w: bv16, b: bv16)
    requires op.mask & b == 0
    ensures Apply(op, w) & b == w & b
  {
    if op.on {
      BitOfSet(w, op.mask, b);
    } else {
      BitOfCleared(w, op.mask, b);
    }
  }

  /** A bit of the mask gets the value written, another one stays. */
  lemma AppliedBit(op: BitOp, w: bv16, b: bv16)
    requires IsBit(b)
    ensures Apply(op, w) & b == if op.mask & b == 0 then w & b else if op.on then b else 0
  {
    InMaskOrNot(op.mask, b);
    if op.mask & b == 0 {
      AppliedOutOfMask(op, w, b);
    } else {
      AppliedInMask(op, w, b);
    }
  }
}
