/** What several modules share. */
module Common {

  datatype Option<T> = None | Some(value: T)

  const TWO64: nat := 0x1_0000_0000_0000_0000
  const MAX64: nat := 0xffff_ffff_ffff_ffff

  /** BLOCK_SIZE_CLONE and BLOCK_SIZE_SUMS */
  const BLOCK: nat := 4096

  function Pow2(n: nat): (r: nat)
    ensures r >= 1
  {
    if n == 0 then 1 else 2 * Pow2(n - 1)
  }

  /** BeesFileRange, as the bytes [begin, end). */
  datatype Range = Range(begin: nat, end: nat)

  function Size(r: Range): int {
    r.end - r.begin
  }

  predicate Has(r: Range, x: int) {
    r.begin <= x < r.end
  }
}
