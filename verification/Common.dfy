/** Types and arithmetic shared by the codec and protocol modules. */
module Common {
  /** One octet. Bit operations of the sources are written arithmetically on it:
      `x & 0x3f` is `x % 64`, `x >> 6` is `x / 64`, and `|` on disjoint bits is `+`. */
  type Byte = b: int | 0 <= b < 256

  datatype Option<+T> = None | Some(value: T)

  function Pow(base: nat, e: nat): (p: nat)
    ensures base > 0 ==> p > 0
  {
    if e == 0 then 1 else base * Pow(base, e - 1)
  }
}
