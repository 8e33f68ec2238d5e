/**
 BeesAddress (src/bees.h, src/bees-types.cc): the place of a block in one 64-bit word, with flags and,
 for a compressed extent, the block's distance from the start of the extent in the low bits; and
 adjust_offset (src/bees-resolve.cc), which uses that distance to find the block through another
 reference to the extent.
 */
module Address {

  import opened Common

  const MAX_COMPRESSED: nat := 128 * 1024  // BLOCK_SIZE_MAX_COMPRESSED_EXTENT
  const TWO32: nat := 0x1_0000_0000

  const COMPRESSED_BIT: nat := 2048
  const EOF_BIT: nat := 1024
  const TOXIC_BIT: nat := 512
  const OFFSET_SPAN: nat := 64  // c_offset_mask + 1

  /** Values below LAST are magic: ZERO, DELALLOC, HOLE, UNUSABLE. */
  const LAST: nat := 4

  datatype Result<T> = Ok(value: T) | InvalidArgument

  /** An Extent as the constructor reads it.  `magic` is what magic_check makes of the other flags. */
  datatype Extent = Extent(begin: int, end: int, physical: nat, offset: int,
                           compressed: bool, last: bool, magic: Option<nat>)

  predicate Aligned(x: int) {
    x % BLOCK == 0
  }

  // ----- Bits of a word

  /** m & mask for a mask of one bit. */
  predicate Bit(a: nat, bit: nat)
    requires bit > 0
  {
    a / bit % 2 == 1
  }

  /** a | mask for a mask of one bit. */
  function SetBit(a: nat, bit: nat): nat
    requires bit > 0
  {
    if Bit(a, bit) then a else a + bit
  }

  predicate IsMagic(a: nat) {
    a < LAST
  }

  predicate IsCompressed(a: nat) {
    !IsMagic(a) && Bit(a, COMPRESSED_BIT)
  }

  predicate IsEof(a: nat) {
    !IsMagic(a) && Bit(a, EOF_BIT)
  }

  predicate IsToxic(a: nat) {
    !IsMagic(a) && Bit(a, TOXIC_BIT)
  }

  predicate HasCompressedOffset(a: nat) {
    IsCompressed(a) && a % OFFSET_SPAN != 0
  }

  /** get_physical_or_zero: a & ~c_all_mask drops the three flags and the offset field. */
  function Physical(a: nat): nat {
    if IsMagic(a) then 0 else a - a % OFFSET_SPAN - a / TOXIC_BIT % 8 * TOXIC_BIT
  }

  /** get_compressed_offset */
  function CompressedOffset(a: nat): Result<nat> {
    if HasCompressedOffset(a) then Ok((a % OFFSET_SPAN - 1) * BLOCK) else InvalidArgument
  }

  /** set_toxic */
  function SetToxic(a: nat): Result<nat> {
    if IsMagic(a) then InvalidArgument else Ok(SetBit(a, TOXIC_BIT))
  }

  // ----- The constructor

  /** Conversion of a 64-bit value to int. */
  function ToInt32(v: int): int {
    (v + TWO32 / 2) % TWO32 - TWO32 / 2
  }

  predicate AtEof(e: Extent, offset: int) {
    e.last && !Aligned(e.end) && offset - offset % BLOCK == e.end - e.end % BLOCK
  }

  /** BeesAddress(const Extent &e, off_t offset) */
  function Pack(e: Extent, offset: int): Result<nat> {
    if !Aligned(e.physical) || !Aligned(e.begin) || !Aligned(offset) || e.end <= e.begin then InvalidArgument
    else if e.magic.Some? then Ok(e.magic.value)
    else if e.physical == 0 then InvalidArgument
    else
      var block := if e.compressed then PackCompressed(e, offset) else Ok((e.physical + offset - e.begin) % TWO64);
      if block.InvalidArgument? then InvalidArgument
      else Ok(if AtEof(e, offset) then SetBit(block.value, EOF_BIT) else block.value)
  }

  function PackCompressed(e: Extent, offset: int): Result<nat> {
    if !Aligned(e.offset) || !(0 <= e.offset < MAX_COMPRESSED) then InvalidArgument
    else
      var extentOffset := ToInt32(offset - e.begin + e.offset);
      if !(0 <= extentOffset < MAX_COMPRESSED) || !Aligned(extentOffset) then InvalidArgument
      else
        // Each field is clear in the aligned physical address.
        Ok(e.physical + COMPRESSED_BIT + extentOffset / BLOCK + 1)
  }

  // ----- Words made of fields

  /** The word that has these fields. */
  function Word(base: nat, compressed: bool, eof: bool, toxic: bool, low: nat): nat {
    base + (if compressed then COMPRESSED_BIT else 0) + (if eof then EOF_BIT else 0) + (if toxic then TOXIC_BIT else 0) + low
  }

  predicate Shows(base: nat, compressed: bool, eof: bool, toxic: bool) {
    base > 0 || compressed || eof || toxic
  }

  /** Each field of a word can be read back, whatever the others are. */
  lemma WordFields(base: nat, compressed: bool, eof: bool, toxic: bool, low: nat)
    requires Aligned(base) && low < OFFSET_SPAN && Shows(base, compressed, eof, toxic)
    ensures var a := Word(base, compressed, eof, toxic, low);
            && !IsMagic(a) && Physical(a) == base && a % OFFSET_SPAN == low
            && (IsCompressed(a) <==> compressed) && (IsEof(a) <==> eof) && (IsToxic(a) <==> toxic)
  {
    var q, a := base / BLOCK, Word(base, compressed, eof, toxic, low);
    var flags := (if compressed then 4 else 0) + (if eof then 2 else 0) + if toxic then 1 else 0;
    Quotients(q, flags, low);
    assert a == q * BLOCK + flags * TOXIC_BIT + low;
    FlagBits(q, flags, compressed, eof, toxic);
  }

  lemma FlagBits(q: nat, flags: nat, compressed: bool, eof: bool, toxic: bool)
    requires flags == (if compressed then 4 else 0) + (if eof then 2 else 0) + if toxic then 1 else 0
    ensures (q * 8 + flags) % 8 == flags && ((q * 8 + flags) % 2 == 1 <==> toxic)
    ensures ((q * 4 + flags / 2) % 2 == 1 <==> eof) && ((q * 2 + flags / 4) % 2 == 1 <==> compressed)
  {
    Eights(q, flags);
    Parity(q * 4, flags);
    Parity(q * 2, flags / 2);
    Parity(q, flags / 4);
    assert q * 8 + flags == 2 * (q * 4) + flags && q * 4 + flags / 2 == 2 * (q * 2) + flags / 2;
  }

  lemma Eights(q: nat, flags: nat)
    requires flags < 8
    ensures (q * 8 + flags) % 8 == flags
  {
  }

  lemma Parity(n: nat, m: nat)
    ensures (2 * n + m) % 2 == m % 2
  {
  }

  lemma Quotients(q: nat, flags: nat, low: nat)
    requires flags < 8 && low < OFFSET_SPAN
    ensures var a := q * BLOCK + flags * TOXIC_BIT + low;
            && a % OFFSET_SPAN == low && a / TOXIC_BIT == q * 8 + flags
            && a / EOF_BIT == q * 4 + flags / 2 && a / COMPRESSED_BIT == q * 2 + flags / 4
  {
  }

  lemma EofSetsField(base: nat, compressed: bool, toxic: bool, low: nat)
    requires Aligned(base) && low < OFFSET_SPAN
    ensures SetBit(Word(base, compressed, false, toxic, low), EOF_BIT) == Word(base, compressed, true, toxic, low)
  {
    if Shows(base, compressed, false, toxic) { WordFields(base, compressed, false, toxic, low); }
  }

  lemma ToxicSetsField(base: nat, compressed: bool, eof: bool, toxic: bool, low: nat)
    requires Aligned(base) && low < OFFSET_SPAN && Shows(base, compressed, eof, toxic)
    ensures SetToxic(Word(base, compressed, eof, toxic, low)) == Ok(Word(base, compressed, eof, true, low))
  {
    WordFields(base, compressed, eof, toxic, low);
  }

  // ----- Round trips

  /** The checks on the offset field after the range check never fail: the field is a whole number of
      blocks, between 1 and 32. */
  lemma OffsetChecksHold(e: Extent, offset: int)
    requires Aligned(e.begin) && Aligned(offset) && Aligned(e.offset)
    requires 0 <= ToInt32(offset - e.begin + e.offset) < MAX_COMPRESSED
    ensures Aligned(ToInt32(offset - e.begin + e.offset))
    ensures 1 <= ToInt32(offset - e.begin + e.offset) / BLOCK + 1 <= MAX_COMPRESSED / BLOCK
  {
    var v := offset - e.begin + e.offset;
    AlignedSum(offset, e.begin, e.offset);
    AlignedFold(v);
    BlockCount(ToInt32(v));
  }

  lemma AlignedSum(a: int, b: int, c: int)
    requires Aligned(a) && Aligned(b) && Aligned(c)
    ensures Aligned(a - b + c)
  {
  }

  lemma BlockCount(n: nat)
    requires n < MAX_COMPRESSED && Aligned(n)
    ensures n / BLOCK < MAX_COMPRESSED / BLOCK
  {
  }

  lemma AlignedFold(v: int)
    requires Aligned(v)
    ensures Aligned(ToInt32(v))
  {
    AlignedMultiple(v, (v + TWO32 / 2) / TWO32, TWO32 / BLOCK);
  }

  lemma AlignedMultiple(v: int, k: int, m: int)
    requires Aligned(v)
    ensures Aligned(v - k * (m * BLOCK))
  {
    assert k * (m * BLOCK) == (k * m) * BLOCK;
    AlignedSum(v, (k * m) * BLOCK, 0);
  }

  /** What the constructor accepts: aligned positions in an extent that is not empty, and either a magic extent,
      whose value it takes, or one on disk; if that is compressed, its offset and the block's distance from its
      start have to be in the 128 KiB of a compressed extent, the latter as an int. */
  lemma PackOkIff(e: Extent, offset: int)
    ensures Pack(e, offset).Ok? <==>
              && Aligned(e.physical) && Aligned(e.begin) && Aligned(offset) && e.begin < e.end
              && (e.magic.Some? || (e.physical != 0 && (e.compressed ==>
                    && Aligned(e.offset) && 0 <= e.offset < MAX_COMPRESSED
                    && 0 <= ToInt32(offset - e.begin + e.offset) < MAX_COMPRESSED)))
    ensures Pack(e, offset).Ok? && e.magic.Some? ==> Pack(e, offset) == Ok(e.magic.value)
  {
    if e.magic.None? && e.compressed && Aligned(e.begin) && Aligned(offset) && Aligned(e.offset)
       && 0 <= ToInt32(offset - e.begin + e.offset) < MAX_COMPRESSED {
      OffsetChecksHold(e, offset);
    }
  }

  /** An address made from an extent on disk is a word whose fields are those of the extent. */
  lemma PackIsWord(e: Extent, offset: int)
    requires e.magic == None && Pack(e, offset).Ok?
    ensures var base := if e.compressed then e.physical else (e.physical + offset - e.begin) % TWO64;
            var low := if e.compressed then ToInt32(offset - e.begin + e.offset) / BLOCK + 1 else 0;
            && Aligned(base) && low < OFFSET_SPAN
            && Pack(e, offset) == Ok(Word(base, e.compressed, AtEof(e, offset), false, low))
  {
    if e.compressed {
      OffsetChecksHold(e, offset);
      EofSetsField(e.physical, true, false, ToInt32(offset - e.begin + e.offset) / BLOCK + 1);
    } else {
      var base := (e.physical + offset - e.begin) % TWO64;
      AlignedModulus(e.physical + offset - e.begin);
      EofSetsField(base, false, false, 0);
    }
  }

  lemma AlignedModulus(v: int)
    requires Aligned(v)
    ensures Aligned(v % TWO64)
  {
    AlignedMultiple(v, v / TWO64, TWO64 / BLOCK);
  }

  /** The block at the end of the file is the one that the end is inside of. */
  lemma EofIsInside(e: Extent, offset: int)
    requires Aligned(offset)
    ensures AtEof(e, offset) <==> e.last && offset < e.end < offset + BLOCK
  {
    assert offset - offset % BLOCK == offset;
    FloorIs(e.end, offset);
  }

  lemma FloorIs(x: int, p: int)
    requires Aligned(p)
    ensures x - x % BLOCK == p <==> p <= x < p + BLOCK
  {
  }

  /** The physical address and the flags come back for every input the checks admit.  The word is taken
      for the magic value ZERO only if the address of a block that is not compressed adds up to 2^64. */
  lemma PhysicalRoundTrip(e: Extent, offset: int)
    requires e.magic == None && Pack(e, offset).Ok?
    ensures var a := Pack(e, offset).value;
            var base := if e.compressed then e.physical else (e.physical + offset - e.begin) % TWO64;
            && Physical(a) == base && (IsMagic(a) <==> base == 0 && !(e.last && offset < e.end < offset + BLOCK))
            && (IsCompressed(a) <==> e.compressed) && (IsEof(a) <==> e.last && offset < e.end < offset + BLOCK) && !IsToxic(a)
  {
    EofIsInside(e, offset);
    PackIsWord(e, offset);
    var base := if e.compressed then e.physical else (e.physical + offset - e.begin) % TWO64;
    var low := if e.compressed then ToInt32(offset - e.begin + e.offset) / BLOCK + 1 else 0;
    if Shows(base, e.compressed, AtEof(e, offset), false) {
      WordFields(base, e.compressed, AtEof(e, offset), false, low);
    }
  }

  /** The distance of a block from the start of its compressed extent comes back exactly if it is inside
      a compressed extent's 128 KiB; a distance that the conversion to int folds into that range is
      accepted by the checks and comes back folded. */
  lemma OffsetRoundTripIff(e: Extent, offset: int)
    requires e.magic == None && e.compressed && Pack(e, offset).Ok?
    ensures CompressedOffset(Pack(e, offset).value).Ok?
    ensures CompressedOffset(Pack(e, offset).value).value == offset - e.begin + e.offset
            <==> 0 <= offset - e.begin + e.offset < MAX_COMPRESSED
  {
    var v := offset - e.begin + e.offset;
    OffsetChecksHold(e, offset);
    PackIsWord(e, offset);
    WordFields(e.physical, true, AtEof(e, offset), false, ToInt32(v) / BLOCK + 1);
    assert CompressedOffset(Pack(e, offset).value) == Ok(ToInt32(v));
    FoldsIff(v);
  }

  lemma FoldsIff(v: int)
    requires 0 <= ToInt32(v) < MAX_COMPRESSED
    ensures ToInt32(v) == v <==> 0 <= v < MAX_COMPRESSED
  {
  }

  /** 4 GiB past the start is accepted and reads back as no distance at all. */
  lemma OffsetFolds(e: Extent)
    requires e == Extent(0, 2 * TWO32, BLOCK, 0, true, false, None)
    ensures Pack(e, TWO32).Ok? && CompressedOffset(Pack(e, TWO32).value) == Ok(0)
  {
    assert ToInt32(TWO32) == 0;
    WordFields(BLOCK, true, false, false, 1);
  }

  /** Marking an address toxic changes nothing else that can be read from it, and marks it. */
  lemma ToxicKeepsFields(e: Extent, offset: int)
    requires e.magic == None && Pack(e, offset).Ok? && !IsMagic(Pack(e, offset).value)
    ensures var a := Pack(e, offset).value;
            SetToxic(a).Ok? &&
            var t := SetToxic(a).value;
            && IsToxic(t) && Physical(t) == Physical(a) && CompressedOffset(t) == CompressedOffset(a)
            && (IsCompressed(t) <==> IsCompressed(a)) && (IsEof(t) <==> IsEof(a)) && SetToxic(t) == Ok(t)
  {
    PackIsWord(e, offset);
    var base := if e.compressed then e.physical else (e.physical + offset - e.begin) % TWO64;
    var low := if e.compressed then ToInt32(offset - e.begin + e.offset) / BLOCK + 1 else 0;
    WordFields(base, e.compressed, AtEof(e, offset), false, low);
    ToxicSetsField(base, e.compressed, AtEof(e, offset), false, low);
    WordFields(base, e.compressed, AtEof(e, offset), true, low);
    ToxicSetsField(base, e.compressed, AtEof(e, offset), true, low);
  }

  // ----- adjust_offset

  datatype Adjusted = At(offset: int) | TooLow | TooHigh | NoOffset

  /** Where to look for the block of address a, given the extent e at the candidate reference. */
  function AdjustOffset(a: nat, haystack: int, e: Extent): (r: Adjusted)
    ensures !IsCompressed(a) ==> r == At(haystack)
    ensures r.NoOffset? <==> IsCompressed(a) && CompressedOffset(a).InvalidArgument?
  {
    if !IsCompressed(a) then At(haystack)
    else if !HasCompressedOffset(a) then NoOffset
    else
      var coff := CompressedOffset(a).value;
      if e.offset > coff then TooLow
      else if e.end - e.begin <= coff - e.offset then TooHigh
      else At(e.begin + coff - e.offset)
  }

  /** A reference to part of a compressed extent. */
  predicate CompressedRef(e: Extent) {
    && e.compressed && e.magic == None && e.physical > 0 && Aligned(e.physical) && Aligned(e.begin) && Aligned(e.offset)
    && e.begin < e.end && 0 <= e.offset
  }

  /** The distance is one that the constructor makes (OffsetChecksHold), or the reference is not longer
      than a compressed extent. */
  predicate DistanceOk(e: Extent, coff: nat) {
    coff < MAX_COMPRESSED || e.offset + (e.end - e.begin) <= MAX_COMPRESSED
  }

  /** p is a block of the reference, and its own address has this distance. */
  predicate Encodes(e: Extent, p: int, coff: nat) {
    e.begin <= p < e.end && Aligned(p) && Pack(e, p).Ok? && CompressedOffset(Pack(e, p).value) == Ok(coff)
  }

  /** The block is less than 4 GiB into the extent, so that its distance is an int as it is. */
  predicate Unfolded(e: Extent, p: int) {
    p - e.begin + e.offset < TWO32
  }

  /** adjust_offset finds exactly the block whose own address encodes the same distance. */
  lemma AdjustFindsTheBlock(a: nat, haystack: int, e: Extent, p: int)
    requires HasCompressedOffset(a) && CompressedRef(e) && DistanceOk(e, CompressedOffset(a).value)
    ensures AdjustOffset(a, haystack, e) == At(p) <==> Encodes(e, p, CompressedOffset(a).value) && Unfolded(e, p)
  {
    var coff := CompressedOffset(a).value;
    EncodesIff(e, p, coff);
    AlignedTarget(e.begin, e.offset, a % OFFSET_SPAN - 1);
  }

  lemma AlignedTarget(begin: int, offset: int, blocks: int)
    requires Aligned(begin) && Aligned(offset)
    ensures Aligned(begin + blocks * BLOCK - offset)
  {
  }

  /** It rejects a reference exactly if no block of it encodes the distance. */
  lemma AdjustRejectsIff(a: nat, haystack: int, e: Extent)
    requires HasCompressedOffset(a) && CompressedRef(e) && DistanceOk(e, CompressedOffset(a).value)
    ensures !AdjustOffset(a, haystack, e).At? <==> forall q :: !(Encodes(e, q, CompressedOffset(a).value) && Unfolded(e, q))
  {
    var r := AdjustOffset(a, haystack, e);
    if r.At? {
      AdjustFindsTheBlock(a, haystack, e, r.offset);
    } else {
      forall q ensures !(Encodes(e, q, CompressedOffset(a).value) && Unfolded(e, q)) { AdjustFindsTheBlock(a, haystack, e, q); }
    }
  }

  lemma EncodesIff(e: Extent, p: int, coff: nat)
    requires CompressedRef(e) && DistanceOk(e, coff)
    ensures Encodes(e, p, coff) && Unfolded(e, p) <==> e.begin <= p < e.end && Aligned(p) && p - e.begin + e.offset == coff < TWO32
  {
    if e.begin <= p < e.end && Aligned(p) && Unfolded(e, p) {
      var v := p - e.begin + e.offset;
      FoldsInRange(v);
      if v < MAX_COMPRESSED {
        OffsetChecksHold(e, p);
        assert Pack(e, p).Ok?;
        OffsetRoundTripIff(e, p);
      }
    }
  }

  lemma FoldsInRange(v: int)
    requires 0 <= v < TWO32
    ensures if v < MAX_COMPRESSED then ToInt32(v) == v else !(0 <= ToInt32(v) < MAX_COMPRESSED)
  {
  }
}
