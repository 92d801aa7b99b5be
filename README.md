# Cache simulator core, modelled in Dafny

This project models the core of `cache_simulator/cache_sim.c`, a trace-driven
simulator of a single-level cache with 64-byte blocks. The cache is direct-mapped
(`dm`) or fully associative (`fa`). It is unified (`uc`) or split (`sc`) into an
instruction half and a data half. The modelled parts are:

- `parse_address`: it splits a 32-bit address into an index and a tag. This
  is `AddressDecoder.ParseAddress`. It is computed with the code's own shifts
  and mask (`Bits.ShiftRight`, `Bits.ShiftLeft`, `Bits.BitAnd`). It is proved
  equal to the arithmetic split of the block number.
- `initialize_cache`: a zeroed tag array. This is `CacheModel.InitializeCache`.
- `access_block` with the globals it updates:
  - the tag array;
  - the FIFO cursors `counter` and `counter2`;
  - the `cache_statistics` counters.

  These globals are the fields of the class `CacheModel.Cache`. The method
  `Cache.Access` has one branch per configuration. Its scans are `while`
  loops that return early, as in the C. It is proved to perform
  `CacheModel.Step`, a function of the old state that specifies one access.
- The driver loop of `main`. `CacheModel.Run` folds `Step` over every
  record it is given, that is, successive `access_block` calls.
  `CacheModel.Simulate` is the loop itself. It first cuts the trace at the
  first record with address 0 (`CacheModel.BeforeSentinel`), where `main`
  stops, then runs `Run` from the initial cache.

The lemmas in `CacheProperties` state what each configuration does, about
`Step` and `Run`:

- FIFO replacement in a fully associative cache;
- that repeating an access hits at once;
- that the two halves of a split cache do not interfere.

The model follows the code as written:

- `uint32_t` is `Bits.Word`, an integer below 2^32, with the shift widths and
  the loss of bits past bit 31 written out.
- `block_size` is the constant 64. The fully associative tag is
  `address >> 6`, hard-coded as in the C.
- The floating-point `(int)log2(n)` becomes the exact `Bits.Log2` on powers
  of two.
- A slot holding 0 counts as empty, and 0 is also a legal tag. An access
  whose tag is 0 therefore hits on an empty slot, and a cold cache does not
  make every first access miss. Address 0 itself never reaches the cache,
  because it ends the trace. But every nonzero address below
  `64 * num_blocks` has tag 0 in a direct-mapped cache, and so does every
  nonzero address below 64 in a fully associative one. Three small traces, run by `Simulate`, show this:
  - `TwoEmptySlotsHit`: `I 0x4`, `I 0x40`, `I 0x0`, `I 0x80` on a 2-block
    direct-mapped cache simulates only the first two records. Both have
    tag 0, so the run gives two hits, not two misses.
  - `RepeatedAddressHits`: `D 0x1000` twice gives one miss, then one hit.
  - `BlockZeroHitsThenFills`: `D 0x4`, `D 0x40`, `D 0x80` on a 2-block fully
    associative cache gives one hit. The cache ends as `[1, 2]` and the cursor
    has not moved, so there is no eviction.
- The split point of a split cache is `block_size / 2 = 32`, not half the
  block count. The data half starts at slot 32 whatever the cache size.
  - A split direct-mapped cache still computes its index with
    `log2(num_blocks)` bits.
  - A 4-block split direct-mapped cache (256 bytes) writes its data accesses
    to slot `index + 32`, past the end of the array. `Access` requires every
    array access to be in bounds (`CacheModel.InBounds`), so such
    configurations fall outside the model.

## Model

| member | source | states |
|---|---|---|
| Bits.Log2 | cache_simulator/cache_sim.c:60-62 | The integer logarithm used for the bit widths: `2^Log2(n) == n` for every power of two `n`. |
| Bits.ShiftRight | cache_simulator/cache_sim.c:69-70 | `x >> n` on a word, for `n < 32`, is a word no larger than `x`. |
| Bits.ShiftLeft | cache_simulator/cache_sim.c:68 | `x << n` on a word, for `n < 32`: the low `n` bits are 0; when `x * 2^n` fits in a word it is the result; shifting back right by `n` gives `x mod 2^(32 - n)`, the bits that survived. |
| Bits.BitAnd | cache_simulator/cache_sim.c:69 | Bitwise AND of two naturals is no larger than either operand. |
| Bits.AllOnesShift | cache_simulator/cache_sim.c:68 | `0xFFFFFFFF >> (32 - k)` is `2^k - 1`, the `k` low-order ones. |
| Bits.BitAndLowOnes | cache_simulator/cache_sim.c:69 | ANDing with `k` low-order ones keeps the value modulo `2^k` (proof by induction on the bits). |
| Bits.BitAndMask | cache_simulator/cache_sim.c:68-69 | ANDing with `k` ones shifted left by `s` keeps exactly bits `s .. s+k-1` of `x`, in place. |
| AddressDecoder.OffsetBitsIsLog2 | cache_simulator/cache_sim.c:62 | `log2(block_size)` is 6 for `block_size == 64`. |
| AddressDecoder.ParseAddress | cache_simulator/cache_sim.c:58-80 | Direct-mapped: `index == (address >> 6) % num_blocks < num_blocks` and `tag == address / (64 * num_blocks)`. Fully associative: `index == 0` and `tag == address >> 6`. |
| AddressDecoder.DirectFields | cache_simulator/cache_sim.c:68-70 | The mask-and-shift computation of the index and the shift of the tag equal the block number modulo, and divided by, `num_blocks`. |
| AddressDecoder.DirectRoundTrip | cache_simulator/cache_sim.c:60-71 | Round trip: `tag * num_blocks + index == address >> 6`; adding back the offset gives the whole address; the tag fits in the `32 - index bits - 6` bits left for it. |
| AddressDecoder.FullyAssociativeTagWidth | cache_simulator/cache_sim.c:74-78 | The fully associative tag is below `2^26`. |
| CacheModel.InitializeCache | cache_simulator/cache_sim.c:84-90 | Returns a fresh array of exactly `num_blocks` slots, every one 0. |
| CacheModel.Cache.constructor | cache_simulator/cache_sim.c:264-268 | The state before the first access: a fresh zeroed tag array, `counter == 0`, `counter2 == block_size / 2`, statistics reset. |
| CacheModel.Lookup | cache_simulator/cache_sim.c:121-133 | The ascending scan stops at the first slot holding the tag (hit) or 0 (fill), and otherwise reports that no slot of the range holds either. |
| CacheModel.DirectSlot | cache_simulator/cache_sim.c:146-176 | The slot a direct-mapped access uses is `index` places past the start of its region: `index` for a unified cache or a split instruction access, `index + 32` for a split data access. With an index below 32, a split access stays in its own half. |
| CacheModel.DirectStep | cache_simulator/cache_sim.c:104-116 | A direct-mapped access hits exactly when its slot holds the tag; afterwards that slot holds the tag and no other slot changes; the cursors and the access count are unchanged. |
| CacheModel.Evict | cache_simulator/cache_sim.c:134-142 | Replacement under the cursor keeps every cursor inside its region and leaves the statistics unchanged. |
| CacheModel.AssociativeStep | cache_simulator/cache_sim.c:118-143 | A fully associative access keeps the state valid, counts one access and at most one hit. |
| CacheModel.Step | cache_simulator/cache_sim.c:98-234 | Every access, in all four configurations, raises `accesses` by exactly 1 and `hits` by 0 or 1, and keeps every cursor inside its region. |
| CacheModel.Run | cache_simulator/cache_sim.c:337-348 | Applying a trace adds exactly its length to `accesses` and at most its length to `hits`, and keeps the state valid. |
| CacheModel.BeforeSentinel | cache_simulator/cache_sim.c:337-342 | The simulated records are the longest prefix of the trace without address 0; the record after them, if any, has address 0. |
| CacheModel.Simulate | cache_simulator/cache_sim.c:334-348 | The whole run counts exactly the records before the sentinel as accesses, and no more hits than accesses. |
| CacheModel.Cache.Access | cache_simulator/cache_sim.c:98-234 | The in-place update of the array and the fields is exactly `Step` of the old state; the array itself is not replaced. |
| CacheModel.Cache.AccessDirect | cache_simulator/cache_sim.c:104-116 | The direct-mapped branch performs `DirectStep` on the counted state. |
| CacheModel.Cache.AccessUnifiedAssociative | cache_simulator/cache_sim.c:118-143 | The unified scan loop with early return, then eviction under `counter`, performs `AssociativeStep`. |
| CacheModel.Cache.AccessSplitInstruction | cache_simulator/cache_sim.c:183-206 | The instruction-half loop over slots `0 .. 31`, then eviction under `counter`, performs `AssociativeStep`. |
| CacheModel.Cache.AccessSplitData | cache_simulator/cache_sim.c:207-232 | The data-half loop over slots `32 .. 63`, then eviction under `counter2`, performs `AssociativeStep`. |
| CacheProperties.LookupFrame | cache_simulator/cache_sim.c:121-133 | The scan reads only the slots of its range: equal ranges give equal outcomes. |
| CacheProperties.LookupStopsAt | cache_simulator/cache_sim.c:121-133 | When slot `j` holds the tag or 0 and no earlier slot does, the scan stops at `j` (hit or fill). |
| CacheProperties.DirectMappedAccess | cache_simulator/cache_sim.c:104-176 | Unified or split direct-mapped: hit exactly when the slot (`index`, or `index + 32` for split data) holds the tag; afterwards it holds the tag, no other slot changed, the cursors did not move. |
| CacheProperties.AssociativeHit | cache_simulator/cache_sim.c:121-127 | Fully associative: hit exactly when the scan meets the tag before any 0; a hit changes nothing but the two counters. |
| CacheProperties.AssociativeFill | cache_simulator/cache_sim.c:128-132 | A miss whose scan meets an empty slot first writes the tag there, a miss, with no cursor moving. |
| CacheProperties.AssociativeEvict | cache_simulator/cache_sim.c:134-142 | With neither the tag nor 0 in the region: a miss that overwrites the slot under the region's cursor and advances the cursor by one, wrapping from the last slot of the region to its first. Split caches are taken at 64 blocks only. |
| CacheProperties.RepeatHits | cache_simulator/cache_sim.c:98-234 | Repeating an access immediately hits, in every configuration. |
| CacheProperties.FillsInOrder | cache_simulator/cache_sim.c:121-133 | From the initial cache, accesses to different nonzero blocks fill slots `0, 1, ...` in arrival order, all miss, and `counter` stays 0. |
| CacheProperties.FifoEvictsFirstInserted | cache_simulator/cache_sim.c:118-143 | After `n` different blocks fill `n` slots, block `n + 1` evicts slot 0, which holds the first block; the others stay; `counter` moves to 1 (back to 0 when there is one block). |
| CacheProperties.FifoEvictedBlockMisses | cache_simulator/cache_sim.c:118-143 | After that eviction, an access to the first block misses. |
| CacheProperties.SplitAssociativeFrame | cache_simulator/cache_sim.c:179-233 | Split fully associative: an instruction access touches only slots `0 .. 31` and `counter` (kept below 32); a data access only slots `32 ..` and `counter2` (kept in `[32, num_blocks)`). |
| CacheProperties.SplitAssociativeHitsIsolated | cache_simulator/cache_sim.c:179-233 | Neither kind of access changes whether an access of the other kind hits. |
| CacheProperties.InstructionThenData | cache_simulator/cache_sim.c:179-233 | A data access after an instruction access changes the data half and `counter2` exactly as it would have done first. |
| CacheProperties.DataThenInstruction | cache_simulator/cache_sim.c:179-233 | An instruction access after a data access changes the instruction half and `counter` exactly as it would have done first. |
| CacheProperties.SplitAssociativeCommute | cache_simulator/cache_sim.c:179-233 | An instruction access and a data access leave the same state in either order. |
| CacheProperties.SplitDirectSameAddress | cache_simulator/cache_sim.c:146-176 | Split direct-mapped: the same address used as instruction and as data reaches two different slots, so neither changes whether the other hits. |
| CacheProperties.SplitDirectDataBounds | cache_simulator/cache_sim.c:146-175 | As written, a 64-block split direct-mapped data access stays in the array exactly when its block number modulo 64 is below 32. |
| CacheProperties.OverlapDecodes | cache_simulator/cache_sim.c:66-71 | `0x800` decodes to index 32, tag 0 and `0x1000` to index 0, tag 1 in a 64-block direct-mapped cache. |
| CacheProperties.SplitDirectHalvesOverlap | cache_simulator/cache_sim.c:146-175 | As written, the split direct-mapped halves overlap: `I 0x800` and `D 0x1000` share slot 32, and the data access turns the instruction hit into a miss. |
| AddressDecoder.HalfParseAddress | cache_simulator/cache_sim.c:60-71 | Corrected split decoding: the index is below `num_blocks / 2` and `tag * (num_blocks / 2) + index` is the block number. |
| CacheProperties.HalfDecodeIsolation | cache_simulator/cache_sim.c:146-175 | With the corrected decoding every access of a 64-block split direct-mapped cache is in bounds, neither kind changes whether the other hits, and the two orders commute. |
| CacheProperties.TwoEmptySlotsHit | cache_simulator/cache_sim.c:104-116 | The main loop on `I 0x4`, `I 0x40`, `I 0x0`, `I 0x80` with a 2-block direct-mapped unified cache simulates only the two records before the address-0 sentinel: 2 accesses, 2 hits, slots `[0, 0]`. |
| CacheProperties.RepeatedAddressHits | cache_simulator/cache_sim.c:104-116 | The main loop on `D 0x1000` twice with a 2-block direct-mapped unified cache: 2 accesses, 1 hit, slots `[32, 0]`. |
| CacheProperties.BlockZeroHitsThenFills | cache_simulator/cache_sim.c:118-143 | The main loop on `D 0x4`, `D 0x40`, `D 0x80` with a 2-block fully associative unified cache: 3 accesses, 1 hit, slots `[1, 2]`, `counter` 0. |

## Left out

- `main`'s command-line parsing, and `num_blocks = cache_size / block_size`: argument handling with `atoi`, `strcmp` and `exit`. The configuration is a parameter (`CacheModel.Config`).
- `read_transaction` and the trace file: `fopen` and `fscanf` I/O. A trace is a sequence of records, and the end of file is the address-0 sentinel that `BeforeSentinel` already handles.
- The printed statistics and the floating-point hit rate: output and floating point.
- `malloc` and `memset`: only their result, a fresh zeroed array, is modelled.
- `access_block` declares `uint32_t *cache[]`, but `main` passes a `uint32_t *`, so on a 64-bit machine the C indexes 8-byte elements of a 4-byte-element buffer. The model uses one 32-bit slot per block, which is what the code evidently intends.
- CacheModel.Cache.Access: the 64-bit `cache_statistics` counters are unbounded here. Their wrap-around after 2^64 accesses is not modelled.
- AddressDecoder.ParseAddress: requires a power-of-two block count of at least 2 with fewer than 32 index and offset bits together. For other counts the C truncates a floating-point `log2`, or, with one block, shifts a word by 32, which C leaves undefined.
- CacheModel.Cache.Access: requires every array access to be in bounds (`InBounds`, and for split fully associative caches at least 64 blocks). The C would read or write past the array otherwise, for example the data half of any split cache smaller than 64 blocks.
- CacheProperties.AssociativeEvict: requires a split cache to have exactly 64 blocks. With more blocks, `counter2` wraps at `num_blocks - 1` rather than at the end of the 32 data slots the scan reads, so the eviction lands outside the scanned region. The usage message allows 128 to 4096 bytes, that is, at most 64 blocks, and a split fully associative cache needs all 64 slots for its data half at slots `32 .. 63`.
- CacheProperties.RepeatHits: excludes split fully associative caches with more than 64 blocks. There `counter2` evicts into slots `64 ..` that the data scan, bounded by `block_size / 2`, never reads, so a repeated data access can miss.
- The `else if (mapping == fa)` fall-through of `parse_address`, which leaves the result uninitialised: the enumeration has only the two mappings, so the case cannot arise.

## Findings

| source | as written | input that shows it | evidently intended | confidence | as-written member | corrected member |
|---|---|---|---|---|---|---|
| cache_simulator/cache_sim.c:60-71 | A split direct-mapped cache decodes its index with all `log2(num_blocks)` bits, then places data at `index + 32`. The instruction half therefore reaches slots `32 .. 63`, which are also the data half, and data indices of 32 or more fall past the array. | 64 blocks: `I 0x800` (index 32, tag 0) and `D 0x1000` (index 0, tag 1) both use slot 32. `I 0x800` hits on the initial cache but misses after `D 0x1000`. `D 0x800` writes slot 64 of a 64-slot array. | Each half is a direct-mapped cache of `num_blocks / 2` blocks, with one index bit fewer, so the halves stay disjoint and in bounds. | not executed | CacheProperties.SplitDirectHalvesOverlap | CacheProperties.HalfDecodeIsolation |

In this table, `SplitDirectDataBounds` shows the out-of-bounds half of the
problem. The corrected decoder is `AddressDecoder.HalfParseAddress`. The
simulation (`Run`, `Simulate`) keeps the decoding as written.
