/** Splitting a 32-bit memory address into the index and tag the cache uses
    (`parse_address` in cache_simulator/cache_sim.c). */
module AddressDecoder {
  import opened Bits

  /** `block_size`: a global that is set to 64 and never reassigned. */
  const BlockSize: nat := 64

  /** `log2(block_size)`: the width of the byte offset inside a block. */
  const OffsetBits: nat := 6

  lemma OffsetBitsIsLog2()
    ensures IsPowerOfTwo(BlockSize) && Log2(BlockSize) == OffsetBits && Pow2(OffsetBits) == BlockSize
  {
    Log2OfPow2(6);
  }

  /** `cache_map_t` */
  datatype Mapping = DirectMapped | FullyAssociative

  /** `access_t` */
  datatype AccessKind = Instruction | Data

  /** `mem_access_t`: one record of the trace. */
  datatype MemAccess = MemAccess(address: Word, kind: AccessKind)

  /** `parsed_address` */
  datatype ParsedAddress = ParsedAddress(index: Word, tag: Word)

  /** What the direct-mapped decoding needs of the block count: a power of two
      (the widths come from its logarithm), at least one index bit (otherwise
      the mask is built by shifting a word by 32 places) and no more index and
      offset bits than a word has. */
  predicate DirectDecodable(numBlocks: nat)
  {
    IsPowerOfTwo(numBlocks) && 1 <= Log2(numBlocks) && Log2(numBlocks) + OffsetBits < 32
  }

  /** The direct-mapped index is the block number modulo the number of blocks
      and the tag is the rest of the block number; the fully associative index
      is always 0 and the tag is the whole block number. */
  function ParseAddress(mapping: Mapping, address: Word, numBlocks: nat): (r: ParsedAddress)
    requires mapping == DirectMapped ==> DirectDecodable(numBlocks)
    ensures mapping == DirectMapped ==>
      r.index < numBlocks &&
      r.index == address / BlockSize % numBlocks &&
      r.tag == address / (BlockSize * numBlocks)
    ensures mapping == FullyAssociative ==> r.index == 0 && r.tag == address / BlockSize
  {
    if mapping == DirectMapped then
      var indexBits := Log2(numBlocks);
      var offsetBits := OffsetBits;
      var tagBits := 32 - indexBits - offsetBits;
      var indexMask := ShiftLeft(ShiftRight(AllOnes, tagBits + offsetBits), offsetBits);
      DirectFields(address, numBlocks, indexMask);
      ParsedAddress(ShiftRight(BitAnd(address, indexMask), offsetBits),
                    ShiftRight(address, offsetBits + indexBits))
    else
      OffsetBitsIsLog2();
      ParsedAddress(0, ShiftRight(address, 6))
  }

  /** The shift-and-mask computation of the direct-mapped fields equals the
      arithmetic split of the block number. */
  lemma DirectFields(address: Word, numBlocks: nat, indexMask: Word)
    requires DirectDecodable(numBlocks)
    requires indexMask == ShiftLeft(ShiftRight(AllOnes, 32 - Log2(numBlocks)), OffsetBits)
    ensures ShiftRight(BitAnd(address, indexMask), OffsetBits) == address / BlockSize % numBlocks
    ensures ShiftRight(address, OffsetBits + Log2(numBlocks)) == address / (BlockSize * numBlocks)
  {
    var k := Log2(numBlocks);
    OffsetBitsIsLog2();
    AllOnesShift(k);
    var ones := Pow2(k) - 1;
    // The mask does not reach past bit 31, so the left shift loses nothing.
    Pow2Add(k, 6);
    Pow2Monotone(k + 6, 32);
    Pow2Of32();
    MulMonotone(ones, Pow2(k), Pow2(6));
    assert indexMask == ones * Pow2(6);
    BitAndMask(address, k, 6);
    var z := address / Pow2(6) % Pow2(k);
    DivModUnique(z * Pow2(6), Pow2(6), z, 0);
    Pow2Add(6, k);
    DivDiv(address, Pow2(6), Pow2(k));
  }

  /** Round trip: the tag followed by the index gives back the block number,
      and with the offset bits the whole address; the tag fits in the
      `32 - indexBits - offsetBits` bits left for it. */
  lemma DirectRoundTrip(address: Word, numBlocks: nat)
    requires DirectDecodable(numBlocks)
    ensures var p := ParseAddress(DirectMapped, address, numBlocks);
      p.tag * numBlocks + p.index == address / BlockSize &&
      (p.tag * numBlocks + p.index) * BlockSize + address % BlockSize == address &&
      p.tag < Pow2(32 - Log2(numBlocks) - OffsetBits)
  {
    var k := Log2(numBlocks);
    BlockSplit(address, numBlocks);
    assert ParseAddress(DirectMapped, address, numBlocks).tag < Pow2(32 - k - OffsetBits) by {
      OffsetBitsIsLog2();
      Pow2Add(6, k);
      WordShiftBound(address, 32 - k - 6, 6 + k);
    }
  }

  /** The block number splits into a quotient and a remainder by `n`, and the
      address into the block number and the offset. */
  lemma BlockSplit(address: nat, n: nat)
    requires n >= 1
    ensures address / (BlockSize * n) == address / BlockSize / n
    ensures (address / BlockSize / n) * n + address / BlockSize % n == address / BlockSize
    ensures (address / BlockSize) * BlockSize + address % BlockSize == address
  {
    DivDiv(address, BlockSize, n);
    DivModIdentity(address / BlockSize, n);
    DivModIdentity(address, BlockSize);
  }

  /** The fully associative tag is the block number, so it has 26 bits. */
  lemma FullyAssociativeTagWidth(address: Word, numBlocks: nat)
    ensures ParseAddress(FullyAssociative, address, numBlocks).tag < Pow2(26)
  {
    WordShiftBound(address, 26, 6);
  }

  /** A word shifted right by `m` places fits in the other `32 - m` bits. */
  lemma WordShiftBound(address: Word, n: nat, m: nat)
    requires n + m == 32
    ensures address / Pow2(m) < Pow2(n)
  {
    Pow2Of32();
    DivBound(address, n, m);
  }

  /** The split direct-mapped decoding as evidently intended: each half of a
      split cache is a direct-mapped cache of half the blocks, so the index
      takes one bit fewer. (parse_address uses all `log2(numBlocks)` bits.) */
  function HalfParseAddress(address: Word, numBlocks: nat): (r: ParsedAddress)
    requires DirectDecodable(numBlocks / 2)
    ensures r.index < numBlocks / 2
    ensures r.tag * (numBlocks / 2) + r.index == address / BlockSize
  {
    DirectRoundTrip(address, numBlocks / 2);
    ParseAddress(DirectMapped, address, numBlocks / 2)
  }
}
