/** pkg/flag: testing bits of an unsigned flag set. Values are 8-bit
    vectors: the only flags the core combines are the six `VarKind` bits,
    so no value it builds needs more (Go's `uint` is wider). */
module Flag {

  /** `IsSet(value, flag)`: some bit of `flag` is set in `value`. */
  function IsSet(value: bv8, flag: bv8): bool {
    value & flag != 0
  }

  /** Once a nonzero flag is OR-ed in, it is set, whatever else is OR-ed in later. */
  lemma IsSetAfterOr(v: bv8, f: bv8, w: bv8)
    requires f != 0
    ensures IsSet(v | f, f)
    ensures IsSet(v | f | w, f)
  {
  }

  /** Testing a flag of an OR tests it in either operand. */
  lemma IsSetOr(v: bv8, w: bv8, f: bv8)
    ensures IsSet(v | w, f) <==> IsSet(v, f) || IsSet(w, f)
  {
  }

  /** A value that holds every bit of `v | w` holds every bit of `v`. */
  lemma BitsOfOrPart(r: bv8, v: bv8, w: bv8)
    requires r & (v | w) == v | w
    ensures r & v == v
  {
  }
}
