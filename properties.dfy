/** What the access state machine of cache_simulator/cache_sim.c guarantees:
    the behaviour of each configuration, FIFO replacement in a fully
    associative cache, the isolation of the two halves of a split cache, and
    where split direct-mapped decoding breaks that isolation. */
module CacheProperties {
  import opened Bits
  import opened AddressDecoder
  import opened CacheModel

  // ---------------------------------------------------------------------
  // The scan of a fully associative region

  /** The scan reads only the slots of its range. */
  lemma {:induction false} LookupFrame(a: seq<Word>, b: seq<Word>, i: nat, hi: nat, tag: Word)
    requires i <= hi <= |a| && hi <= |b|
    requires forall j :: i <= j < hi ==> a[j] == b[j]
    ensures Lookup(a, i, hi, tag) == Lookup(b, i, hi, tag)
    decreases hi - i
  {
    if i < hi {
      LookupFrame(a, b, i + 1, hi, tag);
    }
  }

  /** The scan stops at the first slot that holds `tag` or 0. */
  lemma LookupStopsAt(slots: seq<Word>, lo: nat, hi: nat, tag: Word, j: nat)
    requires lo <= j < hi <= |slots|
    requires slots[j] == tag || slots[j] == 0
    requires forall k :: lo <= k < j ==> slots[k] != tag && slots[k] != 0
    ensures Lookup(slots, lo, hi, tag) == if slots[j] == tag then Hit(j) else Fill(j)
  {
  }

  // ---------------------------------------------------------------------
  // One access, configuration by configuration

  /** Direct-mapped, unified or split: the access hits exactly when its slot
      holds the tag (so tag 0 hits on an empty slot); afterwards that slot
      holds the tag, no other slot changed, and the cursors did not move. */
  lemma DirectMappedAccess(cfg: Config, s: CacheState, p: ParsedAddress, kind: AccessKind)
    requires ValidState(cfg, s) && InBounds(cfg, p, kind) && cfg.mapping == DirectMapped
    ensures var slot := DirectSlot(cfg, p, kind);
      var r := Step(cfg, s, p, kind);
      (IsHit(cfg, s, p, kind) <==> s.slots[slot] == p.tag) &&
      r.slots == s.slots[slot := p.tag] &&
      r.counter == s.counter && r.counter2 == s.counter2
  {
  }

  /** Fully associative, unified or either half of a split cache: the access
      hits exactly when the scan of the region meets a slot holding the tag
      before any slot holding 0, and a hit changes nothing but the counters. */
  lemma AssociativeHit(cfg: Config, s: CacheState, p: ParsedAddress, kind: AccessKind)
    requires ValidState(cfg, s) && cfg.mapping == FullyAssociative
    ensures var lo, hi := RegionLo(cfg, kind), RegionHi(cfg, kind);
      IsHit(cfg, s, p, kind) <==>
        exists j :: lo <= j < hi && s.slots[j] == p.tag &&
          forall k :: lo <= k < j ==> s.slots[k] != p.tag && s.slots[k] != 0
    ensures IsHit(cfg, s, p, kind) ==>
      Step(cfg, s, p, kind) == s.(accesses := s.accesses + 1, hits := s.hits + 1)
  {
    var lo, hi := RegionLo(cfg, kind), RegionHi(cfg, kind);
    var l := Lookup(s.slots, lo, hi, p.tag);
    if l.Hit? {
      assert lo <= l.slot < hi && s.slots[l.slot] == p.tag;
    } else if (exists j :: lo <= j < hi && s.slots[j] == p.tag &&
                 forall k :: lo <= k < j ==> s.slots[k] != p.tag && s.slots[k] != 0) {
      var j :| lo <= j < hi && s.slots[j] == p.tag &&
        forall k :: lo <= k < j ==> s.slots[k] != p.tag && s.slots[k] != 0;
      LookupStopsAt(s.slots, lo, hi, p.tag, j);
      assert false;
    }
  }

  /** A miss whose scan meets an empty slot `j` first writes the tag into
      `j`; no cursor moves. */
  lemma AssociativeFill(cfg: Config, s: CacheState, p: ParsedAddress, kind: AccessKind, j: nat)
    requires ValidState(cfg, s) && cfg.mapping == FullyAssociative
    requires RegionLo(cfg, kind) <= j < RegionHi(cfg, kind)
    requires s.slots[j] == 0 && p.tag != 0
    requires forall k :: RegionLo(cfg, kind) <= k < j ==> s.slots[k] != p.tag && s.slots[k] != 0
    ensures !IsHit(cfg, s, p, kind)
    ensures Step(cfg, s, p, kind) == s.(slots := s.slots[j := p.tag], accesses := s.accesses + 1)
  {
    LookupStopsAt(s.slots, RegionLo(cfg, kind), RegionHi(cfg, kind), p.tag, j);
  }

  /** A miss in a region with neither the tag nor an empty slot overwrites
      the slot under the region's cursor (`counter2` for the data half of a
      split cache, `counter` otherwise), and the cursor advances by one,
      wrapping from the last slot of the region to its first. */
  lemma AssociativeEvict(cfg: Config, s: CacheState, p: ParsedAddress, kind: AccessKind)
    requires ValidState(cfg, s) && cfg.mapping == FullyAssociative
    requires cfg.org == Split ==> cfg.numBlocks == 2 * HalfOffset
    requires forall j :: RegionLo(cfg, kind) <= j < RegionHi(cfg, kind) ==> s.slots[j] != p.tag && s.slots[j] != 0
    ensures !IsHit(cfg, s, p, kind)
    ensures var lo, hi := RegionLo(cfg, kind), RegionHi(cfg, kind);
      var r := Step(cfg, s, p, kind);
      if cfg.org == Split && kind == Data then
        lo <= s.counter2 < hi &&
        r == s.(slots := s.slots[s.counter2 := p.tag],
                counter2 := if s.counter2 == hi - 1 then lo else s.counter2 + 1,
                accesses := s.accesses + 1)
      else
        lo <= s.counter < hi &&
        r == s.(slots := s.slots[s.counter := p.tag],
                counter := if s.counter == hi - 1 then lo else s.counter + 1,
                accesses := s.accesses + 1)
  {
    assert Lookup(s.slots, RegionLo(cfg, kind), RegionHi(cfg, kind), p.tag).Full?;
  }

  /** Repeating an access at once hits, in every configuration: the first
      access leaves the tag where the scan or the index finds it. (A split
      fully associative cache larger than 64 blocks is excluded: there the
      data cursor also evicts into slots the data scan never reads.) */
  lemma RepeatHits(cfg: Config, s: CacheState, p: ParsedAddress, kind: AccessKind)
    requires ValidState(cfg, s) && InBounds(cfg, p, kind)
    requires cfg.org == Split && cfg.mapping == FullyAssociative ==> cfg.numBlocks == 2 * HalfOffset
    ensures IsHit(cfg, Step(cfg, s, p, kind), p, kind)
  {
    if cfg.mapping == FullyAssociative {
      var lo, hi := RegionLo(cfg, kind), RegionHi(cfg, kind);
      var r := Step(cfg, s, p, kind);
      match Lookup(s.slots, lo, hi, p.tag)
      case Hit(j) =>
        LookupStopsAt(r.slots, lo, hi, p.tag, j);
      case Fill(j) =>
        LookupStopsAt(r.slots, lo, hi, p.tag, j);
      case Full =>
        var c := if cfg.org == Split && kind == Data then s.counter2 else s.counter;
        assert r.slots == s.slots[c := p.tag];
        LookupStopsAt(r.slots, lo, hi, p.tag, c);
    }
  }

  // ---------------------------------------------------------------------
  // FIFO replacement in a unified fully associative cache

  function UnifiedAssociative(numBlocks: nat): Config
  {
    Config(numBlocks, FullyAssociative, Unified)
  }

  /** The block number of an access: its fully associative tag. */
  function BlockOf(a: MemAccess): Word
  {
    a.address / BlockSize
  }

  /** Accesses to pairwise different blocks, none of them block 0 (whose tag
      0 would hit on an empty slot). */
  predicate DistinctBlocks(trace: seq<MemAccess>)
  {
    (forall i :: 0 <= i < |trace| ==> BlockOf(trace[i]) != 0) &&
    (forall i, j :: 0 <= i < j < |trace| ==> BlockOf(trace[i]) != BlockOf(trace[j]))
  }

  /** Starting from the initial cache, accesses to different blocks fill the
      empty slots in ascending order: the cache then holds the blocks in
      arrival order followed by empty slots, every access missed, and the
      cursor has not moved from 0. */
  lemma {:induction false} FillsInOrder(numBlocks: nat, trace: seq<MemAccess>)
    requires 1 <= numBlocks && |trace| <= numBlocks && DistinctBlocks(trace)
    ensures var r := Run(UnifiedAssociative(numBlocks), Initial(numBlocks), trace);
      |r.slots| == numBlocks &&
      (forall k :: 0 <= k < |trace| ==> r.slots[k] == BlockOf(trace[k])) &&
      (forall k :: |trace| <= k < numBlocks ==> r.slots[k] == 0) &&
      r.counter == 0 && r.counter2 == HalfOffset && r.accesses == |trace| && r.hits == 0
    decreases |trace|
  {
    var cfg := UnifiedAssociative(numBlocks);
    if trace != [] {
      var n := |trace| - 1;
      var prefix := trace[..n];
      assert DistinctBlocks(prefix) by {
        forall i | 0 <= i < n ensures prefix[i] == trace[i] { }
      }
      FillsInOrder(numBlocks, prefix);
      var prior := Run(cfg, Initial(numBlocks), prefix);
      var p := Decode(cfg, trace[n]);
      assert p.tag == BlockOf(trace[n]);
      forall k | 0 <= k < n ensures prior.slots[k] != p.tag && prior.slots[k] != 0 {
        assert prior.slots[k] == BlockOf(prefix[k]) == BlockOf(trace[k]);
      }
      AssociativeFill(cfg, prior, p, trace[n].kind, n);
      RunLast(cfg, Initial(numBlocks), trace);
    }
  }

  /** Unfolding `Run` once: the last access is applied to the state the
      rest of the trace leaves. */
  lemma RunLast(cfg: Config, s: CacheState, trace: seq<MemAccess>)
    requires ValidState(cfg, s) && trace != []
    requires forall i :: 0 <= i < |trace| ==> Admissible(cfg, trace[i])
    ensures Run(cfg, s, trace) ==
      Step(cfg, Run(cfg, s, trace[..|trace| - 1]), Decode(cfg, trace[|trace| - 1]), trace[|trace| - 1].kind)
  {
  }

  /** The first `numBlocks` accesses of a trace of different blocks leave
      every slot filled, in arrival order, with the cursor at 0. */
  lemma FullAfterDistinct(numBlocks: nat, trace: seq<MemAccess>)
    requires 1 <= numBlocks && |trace| == numBlocks + 1 && DistinctBlocks(trace)
    ensures var full := Run(UnifiedAssociative(numBlocks), Initial(numBlocks), trace[..numBlocks]);
      full.hits == 0 && full.counter == 0 && |full.slots| == numBlocks &&
      forall k :: 0 <= k < numBlocks ==> full.slots[k] == BlockOf(trace[k])
  {
    var prefix := trace[..numBlocks];
    assert DistinctBlocks(prefix) by {
      forall i | 0 <= i < numBlocks ensures prefix[i] == trace[i] { }
    }
    FillsInOrder(numBlocks, prefix);
  }

  /** FIFO: after as many different blocks as there are slots, the next new
      block evicts slot 0, which holds the first block to arrive, and the
      cursor moves on to slot 1. */
  lemma FifoEvictsFirstInserted(numBlocks: nat, trace: seq<MemAccess>)
    requires 1 <= numBlocks && |trace| == numBlocks + 1 && DistinctBlocks(trace)
    ensures var s := Run(UnifiedAssociative(numBlocks), Initial(numBlocks), trace);
      s.hits == 0 && |s.slots| == numBlocks &&
      s.slots[0] == BlockOf(trace[numBlocks]) &&
      (forall k :: 1 <= k < numBlocks ==> s.slots[k] == BlockOf(trace[k])) &&
      s.counter == (if numBlocks == 1 then 0 else 1)
  {
    var cfg := UnifiedAssociative(numBlocks);
    FullAfterDistinct(numBlocks, trace);
    var full := Run(cfg, Initial(numBlocks), trace[..numBlocks]);
    var last := trace[numBlocks];
    var newest := Decode(cfg, last);
    assert newest.tag == BlockOf(last);
    forall k | 0 <= k < numBlocks ensures full.slots[k] != newest.tag && full.slots[k] != 0 {
      assert full.slots[k] == BlockOf(trace[k]);
    }
    AssociativeEvict(cfg, full, newest, last.kind);
    RunLast(cfg, Initial(numBlocks), trace);
    var s := Run(cfg, Initial(numBlocks), trace);
    assert s.slots == full.slots[0 := newest.tag];
  }

  /** ... and the first block, evicted, misses when it comes back. */
  lemma FifoEvictedBlockMisses(numBlocks: nat, trace: seq<MemAccess>)
    requires 1 <= numBlocks && |trace| == numBlocks + 1 && DistinctBlocks(trace)
    ensures var cfg := UnifiedAssociative(numBlocks);
      !IsHit(cfg, Run(cfg, Initial(numBlocks), trace), Decode(cfg, trace[0]), trace[0].kind)
  {
    var cfg := UnifiedAssociative(numBlocks);
    FifoEvictsFirstInserted(numBlocks, trace);
    var s := Run(cfg, Initial(numBlocks), trace);
    var first := Decode(cfg, trace[0]);
    assert first.tag == BlockOf(trace[0]);
    forall k | 0 <= k < numBlocks ensures s.slots[k] != first.tag && s.slots[k] != 0 {
      if k > 0 {
        assert s.slots[k] == BlockOf(trace[k]);
      }
    }
    AssociativeEvict(cfg, s, first, trace[0].kind);
  }

  // ---------------------------------------------------------------------
  // The two halves of a split fully associative cache

  function SplitAssociative(numBlocks: nat): Config
  {
    Config(numBlocks, FullyAssociative, Split)
  }

  /** An instruction access touches only slots `0 .. 31` and `counter`, which
      stays below 32; a data access touches only slots `32 ..` and
      `counter2`, which stays in `[32, numBlocks)`. */
  lemma SplitAssociativeFrame(numBlocks: nat, s: CacheState, p: ParsedAddress, kind: AccessKind)
    requires ValidState(SplitAssociative(numBlocks), s)
    ensures var r := Step(SplitAssociative(numBlocks), s, p, kind);
      (kind == Instruction ==>
        r.counter < HalfOffset && r.counter2 == s.counter2 &&
        forall j :: HalfOffset <= j < numBlocks ==> r.slots[j] == s.slots[j]) &&
      (kind == Data ==>
        HalfOffset <= r.counter2 < numBlocks && r.counter == s.counter &&
        forall j :: 0 <= j < HalfOffset ==> r.slots[j] == s.slots[j])
  {
  }

  /** Instruction and data accesses to a split fully associative cache never
      influence each other: neither changes whether the other hits. */
  lemma SplitAssociativeHitsIsolated(numBlocks: nat, s: CacheState, pi: ParsedAddress, pd: ParsedAddress)
    requires ValidState(SplitAssociative(numBlocks), s)
    ensures var cfg := SplitAssociative(numBlocks);
      IsHit(cfg, Step(cfg, s, pd, Data), pi, Instruction) == IsHit(cfg, s, pi, Instruction) &&
      IsHit(cfg, Step(cfg, s, pi, Instruction), pd, Data) == IsHit(cfg, s, pd, Data)
  {
    var cfg := SplitAssociative(numBlocks);
    SplitAssociativeFrame(numBlocks, s, pi, Instruction);
    SplitAssociativeFrame(numBlocks, s, pd, Data);
    LookupFrame(s.slots, Step(cfg, s, pd, Data).slots, 0, HalfOffset, pi.tag);
    LookupFrame(s.slots, Step(cfg, s, pi, Instruction).slots, HalfOffset, 2 * HalfOffset, pd.tag);
  }

  /** A data access after an instruction access does to the data half what
      it would have done first, and leaves the instruction half as the
      instruction access left it. */
  lemma InstructionThenData(numBlocks: nat, s: CacheState, pi: ParsedAddress, pd: ParsedAddress)
    requires ValidState(SplitAssociative(numBlocks), s)
    ensures var cfg := SplitAssociative(numBlocks);
      var afterI, afterD := Step(cfg, s, pi, Instruction), Step(cfg, s, pd, Data);
      var r := Step(cfg, afterI, pd, Data);
      |r.slots| == numBlocks &&
      (forall j :: 0 <= j < HalfOffset ==> r.slots[j] == afterI.slots[j]) &&
      (forall j :: HalfOffset <= j < numBlocks ==> r.slots[j] == afterD.slots[j]) &&
      r.counter == afterI.counter && r.counter2 == afterD.counter2 &&
      r.accesses == s.accesses + 2 && r.hits == afterI.hits + afterD.hits - s.hits
  {
    var cfg := SplitAssociative(numBlocks);
    var afterI := Step(cfg, s, pi, Instruction);
    SplitAssociativeFrame(numBlocks, s, pi, Instruction);
    SplitAssociativeFrame(numBlocks, afterI, pd, Data);
    LookupFrame(s.slots, afterI.slots, HalfOffset, 2 * HalfOffset, pd.tag);
  }

  /** The mirror image: an instruction access after a data access. */
  lemma DataThenInstruction(numBlocks: nat, s: CacheState, pi: ParsedAddress, pd: ParsedAddress)
    requires ValidState(SplitAssociative(numBlocks), s)
    ensures var cfg := SplitAssociative(numBlocks);
      var afterI, afterD := Step(cfg, s, pi, Instruction), Step(cfg, s, pd, Data);
      var r := Step(cfg, afterD, pi, Instruction);
      |r.slots| == numBlocks &&
      (forall j :: 0 <= j < HalfOffset ==> r.slots[j] == afterI.slots[j]) &&
      (forall j :: HalfOffset <= j < numBlocks ==> r.slots[j] == afterD.slots[j]) &&
      r.counter == afterI.counter && r.counter2 == afterD.counter2 &&
      r.accesses == s.accesses + 2 && r.hits == afterI.hits + afterD.hits - s.hits
  {
    var cfg := SplitAssociative(numBlocks);
    var afterD := Step(cfg, s, pd, Data);
    SplitAssociativeFrame(numBlocks, s, pd, Data);
    SplitAssociativeFrame(numBlocks, afterD, pi, Instruction);
    LookupFrame(s.slots, afterD.slots, 0, HalfOffset, pi.tag);
  }

  /** ... and the two orders of an instruction and a data access leave the
      same state. */
  lemma SplitAssociativeCommute(numBlocks: nat, s: CacheState, pi: ParsedAddress, pd: ParsedAddress)
    requires ValidState(SplitAssociative(numBlocks), s)
    ensures var cfg := SplitAssociative(numBlocks);
      Step(cfg, Step(cfg, s, pi, Instruction), pd, Data) == Step(cfg, Step(cfg, s, pd, Data), pi, Instruction)
  {
    var cfg := SplitAssociative(numBlocks);
    InstructionThenData(numBlocks, s, pi, pd);
    DataThenInstruction(numBlocks, s, pi, pd);
    var both := Step(cfg, Step(cfg, s, pi, Instruction), pd, Data);
    var both' := Step(cfg, Step(cfg, s, pd, Data), pi, Instruction);
    assert both.slots == both'.slots;
  }

  // ---------------------------------------------------------------------
  // Split direct-mapped decoding (see "Findings" in README.md)

  function SplitDirect(numBlocks: nat): Config
  {
    Config(numBlocks, DirectMapped, Split)
  }

  lemma SixtyFourIsDecodable()
    ensures DirectDecodable(64) && DirectDecodable(32)
  {
    Log2OfPow2(6);
    Log2OfPow2(5);
  }

  /** As written, a 64-block split direct-mapped cache keeps a data access
      inside the array exactly when its block number modulo 64 is below 32:
      the other half of the addresses would be written past the end. */
  lemma SplitDirectDataBounds(address: Word)
    ensures DirectDecodable(64) &&
      var p := ParseAddress(DirectMapped, address, 64);
      InBounds(SplitDirect(64), p, Data) <==> address / BlockSize % 64 < HalfOffset
  {
    SixtyFourIsDecodable();
  }

  /** The same decoded address used for an instruction and for a data
      access reaches slots `index` and `index + 32`, which differ, so neither
      access changes whether the other hits. */
  lemma SplitDirectSameAddress(numBlocks: nat, s: CacheState, p: ParsedAddress)
    requires ValidState(SplitDirect(numBlocks), s) && InBounds(SplitDirect(numBlocks), p, Data)
    ensures var cfg := SplitDirect(numBlocks);
      InBounds(cfg, p, Instruction) &&
      IsHit(cfg, Step(cfg, s, p, Data), p, Instruction) == IsHit(cfg, s, p, Instruction) &&
      IsHit(cfg, Step(cfg, s, p, Instruction), p, Data) == IsHit(cfg, s, p, Data)
  {
  }

  /** As written, the halves overlap: in a 64-block split direct-mapped cache
      the instruction access `I 0x800` (index 32, tag 0) and the data access
      `D 0x1000` (index 0, tag 1) share slot 32. On the initial cache the
      instruction access hits, but after the data access it misses. */
  lemma SplitDirectHalvesOverlap()
    ensures DirectDecodable(64) &&
      var cfg := SplitDirect(64);
      var s := Initial(64);
      var pi := ParseAddress(DirectMapped, 0x800, 64);
      var pd := ParseAddress(DirectMapped, 0x1000, 64);
      InBounds(cfg, pi, Instruction) && InBounds(cfg, pd, Data) &&
      DirectSlot(cfg, pi, Instruction) == DirectSlot(cfg, pd, Data) == 32 &&
      IsHit(cfg, s, pi, Instruction) &&
      !IsHit(cfg, Step(cfg, s, pd, Data), pi, Instruction)
  {
    OverlapDecodes();
  }

  /** `0x800` is block 32 and `0x1000` block 64 = 1 * 64 + 0. */
  lemma OverlapDecodes()
    ensures DirectDecodable(64)
    ensures ParseAddress(DirectMapped, 0x800, 64) == ParsedAddress(32, 0)
    ensures ParseAddress(DirectMapped, 0x1000, 64) == ParsedAddress(0, 1)
  {
    SixtyFourIsDecodable();
  }

  /** With each half decoded as a direct-mapped cache of 32 blocks, every
      access of a 64-block split cache stays in its own half: all accesses
      are in bounds, neither kind changes whether the other hits, and the
      two orders leave the same state. */
  lemma HalfDecodeIsolation(s: CacheState, addressI: Word, addressD: Word)
    requires ValidState(SplitDirect(64), s)
    ensures DirectDecodable(32) &&
      var cfg := SplitDirect(64);
      var pi := HalfParseAddress(addressI, 64);
      var pd := HalfParseAddress(addressD, 64);
      InBounds(cfg, pi, Instruction) && InBounds(cfg, pd, Data) &&
      IsHit(cfg, Step(cfg, s, pd, Data), pi, Instruction) == IsHit(cfg, s, pi, Instruction) &&
      IsHit(cfg, Step(cfg, s, pi, Instruction), pd, Data) == IsHit(cfg, s, pd, Data) &&
      Step(cfg, Step(cfg, s, pi, Instruction), pd, Data) == Step(cfg, Step(cfg, s, pd, Data), pi, Instruction)
  {
    SixtyFourIsDecodable();
    var cfg := SplitDirect(64);
    var pi := HalfParseAddress(addressI, 64);
    var pd := HalfParseAddress(addressD, 64);
    var a, b := pi.index, pd.index + HalfOffset;
    assert a != b;
    var both := Step(cfg, Step(cfg, s, pi, Instruction), pd, Data);
    var both' := Step(cfg, Step(cfg, s, pd, Data), pi, Instruction);
    assert both.slots == both'.slots;
  }

  // ---------------------------------------------------------------------
  // Small traces, as the main loop runs them

  function DirectUnified(numBlocks: nat): Config
  {
    Config(numBlocks, DirectMapped, Unified)
  }

  /** 128 bytes (2 blocks), direct-mapped, unified, trace `I 0x4`, `I 0x40`,
      `I 0x0`, `I 0x80`: the main loop stops at the record with address 0,
      so only the first two are simulated. Both have tag 0, so both hit on
      the empty slots 0 and 1. */
  lemma TwoEmptySlotsHit()
    ensures DirectDecodable(2)
    ensures var trace := [MemAccess(0x4, Instruction), MemAccess(0x40, Instruction),
                          MemAccess(0x0, Instruction), MemAccess(0x80, Instruction)];
      BeforeSentinel(trace) == trace[..2] &&
      var s := Simulate(DirectUnified(2), trace);
      s.accesses == 2 && s.hits == 2 && s.slots == [0, 0]
  {
    Log2OfPow2(1);
    var trace := [MemAccess(0x4, Instruction), MemAccess(0x40, Instruction),
                  MemAccess(0x0, Instruction), MemAccess(0x80, Instruction)];
    assert trace[1..][1..][0].address == 0;
    assert BeforeSentinel(trace[1..]) == [trace[1]];
    var run := trace[..2];
    assert BeforeSentinel(trace) == run;
    assert run[..1] == [MemAccess(0x4, Instruction)];
    assert run[..1][..0] == [];
    var cfg := DirectUnified(2);
    assert Decode(cfg, run[0]) == ParsedAddress(0, 0);
    assert Decode(cfg, run[1]) == ParsedAddress(1, 0);
    assert Run(cfg, Initial(2), run[..1][..0]) == Initial(2);
    var s1 := Run(cfg, Initial(2), run[..1]);
    assert s1 == Step(cfg, Initial(2), ParsedAddress(0, 0), Instruction);
    assert s1.slots == [0, 0] && s1.hits == 1;
    assert Run(cfg, Initial(2), run) == Step(cfg, s1, ParsedAddress(1, 0), Instruction);
  }

  /** 128 bytes, direct-mapped, unified, trace `D 0x1000`, `D 0x1000`: the
      first access misses and loads tag 32 into slot 0, the repeat hits. */
  lemma RepeatedAddressHits()
    ensures DirectDecodable(2)
    ensures var trace := [MemAccess(0x1000, Data), MemAccess(0x1000, Data)];
      BeforeSentinel(trace) == trace &&
      var s := Simulate(DirectUnified(2), trace);
      s.accesses == 2 && s.hits == 1 && s.slots == [32, 0]
  {
    Log2OfPow2(1);
    var trace := [MemAccess(0x1000, Data), MemAccess(0x1000, Data)];
    assert trace[1..][1..] == [];
    assert BeforeSentinel(trace[1..]) == [trace[1]];
    assert BeforeSentinel(trace) == trace;
    assert trace[..1] == [MemAccess(0x1000, Data)];
    assert trace[..1][..0] == [];
    var cfg := DirectUnified(2);
    assert Decode(cfg, trace[0]) == ParsedAddress(0, 32);
    assert Run(cfg, Initial(2), trace[..1][..0]) == Initial(2);
    var s1 := Run(cfg, Initial(2), trace[..1]);
    assert s1 == Step(cfg, Initial(2), ParsedAddress(0, 32), Data);
    assert s1.slots == [32, 0] && s1.hits == 0;
  }

  /** 128 bytes, fully associative, unified, trace `D 0x4`, `D 0x40`,
      `D 0x80`: tag 0 hits on the empty slot 0, tags 1 and 2 fill slots 0
      and 1, and nothing is evicted. */
  lemma BlockZeroHitsThenFills()
    ensures var trace := [MemAccess(0x4, Data), MemAccess(0x40, Data), MemAccess(0x80, Data)];
      BeforeSentinel(trace) == trace &&
      var s := Simulate(UnifiedAssociative(2), trace);
      s.accesses == 3 && s.hits == 1 && s.slots == [1, 2] && s.counter == 0
  {
    var cfg := UnifiedAssociative(2);
    var trace := [MemAccess(0x4, Data), MemAccess(0x40, Data), MemAccess(0x80, Data)];
    assert trace[1..][1..][1..] == [];
    assert BeforeSentinel(trace[1..][1..]) == [trace[2]];
    assert BeforeSentinel(trace[1..]) == [trace[1], trace[2]];
    assert BeforeSentinel(trace) == trace;
    assert trace[..2] == [MemAccess(0x4, Data), MemAccess(0x40, Data)];
    assert trace[..2][..1] == [MemAccess(0x4, Data)];
    assert trace[..2][..1][..0] == [];
    var s1 := Run(cfg, Initial(2), trace[..2][..1]);
    assert Run(cfg, Initial(2), trace[..2][..1][..0]) == Initial(2);
    assert Decode(cfg, trace[0]).tag == 0;
    assert Lookup(Initial(2).slots, 0, 2, 0) == Hit(0);
    assert s1.slots == [0, 0] && s1.hits == 1 && s1.counter == 0;
    var s2 := Run(cfg, Initial(2), trace[..2]);
    assert Lookup(s1.slots, 0, 2, 1) == Fill(0);
    assert s2.slots == [1, 0] && s2.hits == 1 && s2.counter == 0;
    assert Lookup(s2.slots, 0, 2, 2) == Fill(1);
  }
}
