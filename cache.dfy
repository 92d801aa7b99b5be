/** The cache store and the access/replacement state machine of
    cache_simulator/cache_sim.c (`initialize_cache`, `access_block` and the
    globals `counter`, `counter2` and `cache_statistics` they update).

    `Step` is the specification: one access as a function of the cache state.
    The class `Cache` holds that state in fields and an array, as the source
    does, and its method `Access` is proved to perform `Step`. */
module CacheModel {
  import opened Bits
  import opened AddressDecoder

  /** `cache_org_t`: unified, or split into an instruction and a data half. */
  datatype Organization = Unified | Split

  /** `block_size / 2`: the first slot of the data half of a split cache,
      and the size of the instruction half, whatever the number of blocks. */
  const HalfOffset: nat := BlockSize / 2

  /** The parameters `access_block` receives besides the access itself. */
  datatype Config = Config(numBlocks: nat, mapping: Mapping, org: Organization)

  /** The whole mutable state: the tag array, the two replacement cursors and
      the access and hit counters. A slot holding 0 counts as empty. */
  datatype CacheState = CacheState(slots: seq<Word>, counter: nat, counter2: nat, accesses: nat, hits: nat)

  /** The state when the first access arrives: every slot 0 (`initialize_cache`),
      `counter` 0, `counter2` at `block_size / 2`, the statistics reset. */
  function Initial(numBlocks: nat): CacheState
  {
    CacheState(seq(numBlocks, _ => 0), 0, HalfOffset, 0, 0)
  }

  /** The store has one slot per block and every cursor in use names a slot
      of its region. Split fully associative caches need the whole data half
      `HalfOffset .. 2 * HalfOffset - 1` that the data scan reads. */
  predicate ValidState(cfg: Config, s: CacheState)
  {
    |s.slots| == cfg.numBlocks && cfg.numBlocks >= 1 &&
    match cfg.mapping
    case DirectMapped => true
    case FullyAssociative =>
      if cfg.org == Unified then s.counter < cfg.numBlocks
      else 2 * HalfOffset <= cfg.numBlocks && s.counter < HalfOffset &&
           HalfOffset <= s.counter2 < cfg.numBlocks
  }

  /** The slot a direct-mapped access reads and writes: the data half of a
      split cache is addressed at `index + block_size / 2`. The slot is
      `index` places past the first slot of the access's region, the one
      the fully associative scan also starts from, and an index below 32
      keeps it inside that region. */
  function DirectSlot(cfg: Config, p: ParsedAddress, kind: AccessKind): (r: nat)
    ensures r == RegionLo(cfg, kind) + p.index
    ensures cfg.org == Split && p.index < HalfOffset ==>
      RegionLo(cfg, kind) <= r < RegionHi(cfg, kind)
  {
    if cfg.org == Split && kind == Data then p.index + HalfOffset else p.index
  }

  /** The array access of a direct-mapped configuration stays inside the
      array; fully associative accesses do not use the index. */
  predicate InBounds(cfg: Config, p: ParsedAddress, kind: AccessKind)
  {
    cfg.mapping == DirectMapped ==> DirectSlot(cfg, p, kind) < cfg.numBlocks
  }

  /** The slots `[lo, hi)` a fully associative access scans. */
  function RegionLo(cfg: Config, kind: AccessKind): nat
  {
    if cfg.org == Split && kind == Data then HalfOffset else 0
  }

  function RegionHi(cfg: Config, kind: AccessKind): nat
  {
    if cfg.org == Unified then cfg.numBlocks
    else if kind == Instruction then HalfOffset
    else 2 * HalfOffset
  }

  /** Where the ascending scan of a fully associative region stops. */
  datatype Probe = Hit(slot: nat) | Fill(slot: nat) | Full

  /** The scan from slot `i` stops at the first slot that holds `tag` (a hit)
      or 0 (an empty slot to fill); `Full` when no slot of `[i, hi)` is either.
      A tag of 0 therefore hits on the first empty slot. */
  function Lookup(slots: seq<Word>, i: nat, hi: nat, tag: Word): (r: Probe)
    requires i <= hi <= |slots|
    ensures r.Hit? ==> i <= r.slot < hi && slots[r.slot] == tag
    ensures r.Fill? ==> i <= r.slot < hi && slots[r.slot] == 0 && tag != 0
    ensures r.Full? ==> forall j :: i <= j < hi ==> slots[j] != tag && slots[j] != 0
    ensures !r.Full? ==> forall j :: i <= j < r.slot ==> slots[j] != tag && slots[j] != 0
    decreases hi - i
  {
    if i == hi then Full
    else if slots[i] == tag then Hit(i)
    else if slots[i] == 0 then Fill(i)
    else Lookup(slots, i + 1, hi, tag)
  }

  /** A direct-mapped access to `slot`: it hits exactly when the slot holds
      `tag`; either way the slot holds `tag` afterwards and nothing else
      changes. */
  function DirectStep(s: CacheState, slot: nat, tag: Word): (r: CacheState)
    requires slot < |s.slots|
    ensures r.slots == s.slots[slot := tag]
    ensures r.hits == s.hits + 1 <==> s.slots[slot] == tag
    ensures s.hits <= r.hits <= s.hits + 1
    ensures r.counter == s.counter && r.counter2 == s.counter2 && r.accesses == s.accesses
  {
    if s.slots[slot] == tag then s.(hits := s.hits + 1)
    else s.(slots := s.slots[slot := tag])
  }

  /** A fully associative miss in a full region: the slot under the region's
      cursor receives `tag` and the cursor moves on, wrapping inside the
      region (`counter` for the unified cache and the instruction half,
      `counter2` for the data half, which wraps back to `block_size / 2`). */
  function Evict(cfg: Config, s: CacheState, kind: AccessKind, tag: Word): (r: CacheState)
    requires ValidState(cfg, s) && cfg.mapping == FullyAssociative
    ensures ValidState(cfg, r)
    ensures r.accesses == s.accesses && r.hits == s.hits
  {
    if cfg.org == Unified then
      s.(slots := s.slots[s.counter := tag],
         counter := if s.counter == cfg.numBlocks - 1 then 0 else s.counter + 1)
    else if kind == Instruction then
      s.(slots := s.slots[s.counter := tag],
         counter := if s.counter >= HalfOffset - 1 then 0 else s.counter + 1)
    else
      s.(slots := s.slots[s.counter2 := tag],
         counter2 := if s.counter2 >= cfg.numBlocks - 1 then HalfOffset else s.counter2 + 1)
  }

  /** One call of `access_block`: every access is counted once and is a hit
      or a miss, and the state stays valid. */
  function Step(cfg: Config, s: CacheState, p: ParsedAddress, kind: AccessKind): (r: CacheState)
    requires ValidState(cfg, s) && InBounds(cfg, p, kind)
    ensures ValidState(cfg, r)
    ensures r.accesses == s.accesses + 1
    ensures r.hits == s.hits || r.hits == s.hits + 1
  {
    var counted := s.(accesses := s.accesses + 1);
    match cfg.mapping
    case DirectMapped => DirectStep(counted, DirectSlot(cfg, p, kind), p.tag)
    case FullyAssociative => AssociativeStep(cfg, s, kind, p.tag)
  }

  /** A fully associative access: the scan of the region decides between a
      hit, filling an empty slot and evicting under the cursor. */
  function AssociativeStep(cfg: Config, s: CacheState, kind: AccessKind, tag: Word): (r: CacheState)
    requires ValidState(cfg, s) && cfg.mapping == FullyAssociative
    ensures ValidState(cfg, r)
    ensures r.accesses == s.accesses + 1
    ensures r.hits == s.hits || r.hits == s.hits + 1
  {
    var counted := s.(accesses := s.accesses + 1);
    match Lookup(s.slots, RegionLo(cfg, kind), RegionHi(cfg, kind), tag)
    case Hit(_) => counted.(hits := s.hits + 1)
    case Fill(j) => counted.(slots := s.slots[j := tag])
    case Full => Evict(cfg, counted, kind, tag)
  }

  /** Whether the access is a hit. */
  predicate IsHit(cfg: Config, s: CacheState, p: ParsedAddress, kind: AccessKind)
    requires ValidState(cfg, s) && InBounds(cfg, p, kind)
  {
    Step(cfg, s, p, kind).hits == s.hits + 1
  }

  /** What `parse_address` needs of the configuration. */
  predicate Decodable(cfg: Config)
  {
    cfg.mapping == DirectMapped ==> DirectDecodable(cfg.numBlocks)
  }

  function Decode(cfg: Config, a: MemAccess): ParsedAddress
    requires Decodable(cfg)
  {
    ParseAddress(cfg.mapping, a.address, cfg.numBlocks)
  }

  /** The access stays inside the array once decoded. */
  predicate Admissible(cfg: Config, a: MemAccess)
  {
    Decodable(cfg) && InBounds(cfg, Decode(cfg, a), a.kind)
  }

  /** The simulation loop: decode each access of the trace and apply it, in
      order. Every access is counted, and at most all of them hit. */
  function Run(cfg: Config, s: CacheState, trace: seq<MemAccess>): (r: CacheState)
    requires ValidState(cfg, s)
    requires forall i :: 0 <= i < |trace| ==> Admissible(cfg, trace[i])
    ensures ValidState(cfg, r)
    ensures r.accesses == s.accesses + |trace|
    ensures s.hits <= r.hits <= s.hits + |trace|
    decreases |trace|
  {
    if trace == [] then s
    else
      var last := trace[|trace| - 1];
      assert Admissible(cfg, last);
      var prior := Run(cfg, s, trace[..|trace| - 1]);
      Step(cfg, prior, Decode(cfg, last), last.kind)
  }

  /** The records the main loop simulates: those before the first record
      whose address is 0, the value `read_transaction` also returns at the
      end of the trace file. */
  function BeforeSentinel(trace: seq<MemAccess>): (r: seq<MemAccess>)
    ensures |r| <= |trace| && r == trace[..|r|]
    ensures forall i :: 0 <= i < |r| ==> r[i].address != 0
    ensures |r| < |trace| ==> trace[|r|].address == 0
  {
    if trace == [] || trace[0].address == 0 then []
    else [trace[0]] + BeforeSentinel(trace[1..])
  }

  /** The main loop: from the initial cache, decode and apply every record
      before the sentinel. The statistics count exactly those records. */
  function Simulate(cfg: Config, trace: seq<MemAccess>): (r: CacheState)
    requires ValidState(cfg, Initial(cfg.numBlocks))
    requires forall i :: 0 <= i < |BeforeSentinel(trace)| ==> Admissible(cfg, trace[i])
    ensures ValidState(cfg, r)
    ensures r.accesses == |BeforeSentinel(trace)| && r.hits <= r.accesses
  {
    Run(cfg, Initial(cfg.numBlocks), BeforeSentinel(trace))
  }

  /** `initialize_cache`: a fresh array of `numBlocks` slots, all 0. */
  method InitializeCache(numBlocks: nat) returns (cache: array<Word>)
    ensures fresh(cache)
    ensures cache.Length == numBlocks
    ensures forall i :: 0 <= i < numBlocks ==> cache[i] == 0
  {
    cache := new Word[numBlocks](_ => 0);
  }

  /** The simulator's global cache state, owned by one object. */
  class Cache {
    var slots: array<Word>
    var counter: nat
    var counter2: nat
    var accesses: nat
    var hits: nat

    ghost function View(): CacheState
      reads this, slots
    {
      CacheState(slots[..], counter, counter2, accesses, hits)
    }

    /** The state `main` sets up before the first access. */
    constructor (numBlocks: nat)
      ensures fresh(slots)
      ensures View() == Initial(numBlocks)
    {
      var cache := InitializeCache(numBlocks);
      slots := cache;
      counter := 0;
      counter2 := HalfOffset;
      accesses, hits := 0, 0;
    }

    /** `access_block`: one access under one of the four configurations,
        updating the tag array in place. */
    method Access(org: Organization, mapping: Mapping, parsed: ParsedAddress, numBlocks: nat, access: MemAccess)
      requires ValidState(Config(numBlocks, mapping, org), View())
      requires InBounds(Config(numBlocks, mapping, org), parsed, access.kind)
      modifies this, slots
      ensures slots == old(slots)
      ensures View() == Step(Config(numBlocks, mapping, org), old(View()), parsed, access.kind)
    {
      var index, tag := parsed.index, parsed.tag;
      if org == Unified && mapping == DirectMapped {
        AccessDirect(index, tag);
      } else if org == Unified && mapping == FullyAssociative {
        AccessUnifiedAssociative(numBlocks, tag);
      } else if org == Split && mapping == DirectMapped {
        var offset := HalfOffset;
        if access.kind == Instruction {
          AccessDirect(index, tag);
        } else {
          AccessDirect(index + offset, tag);
        }
      } else if access.kind == Instruction {
        AccessSplitInstruction(numBlocks, tag);
      } else {
        AccessSplitData(numBlocks, tag);
      }
    }

    /** A direct-mapped access to one slot, counted. */
    method AccessDirect(slot: nat, tag: Word)
      requires slot < slots.Length
      modifies this, slots
      ensures slots == old(slots)
      ensures View() == DirectStep(old(View()).(accesses := old(accesses) + 1), slot, tag)
    {
      if slots[slot] == tag {
        hits := hits + 1;
      } else {
        slots[slot] := tag;
      }
      accesses := accesses + 1;
    }

    /** The unified fully associative access: scan every slot, then evict
        under `counter`. */
    method AccessUnifiedAssociative(numBlocks: nat, tag: Word)
      requires ValidState(Config(numBlocks, FullyAssociative, Unified), View())
      modifies this, slots
      ensures slots == old(slots)
      ensures View() == AssociativeStep(Config(numBlocks, FullyAssociative, Unified), old(View()), Instruction, tag)
    {
      ghost var probe := Lookup(slots[..], 0, numBlocks, tag);
      accesses := accesses + 1;
      var i := 0;
      while i < numBlocks
        invariant 0 <= i <= numBlocks
        invariant View() == old(View()).(accesses := old(accesses) + 1)
        invariant Lookup(slots[..], i, numBlocks, tag) == probe
      {
        if slots[i] == tag {
          hits := hits + 1;
          return;
        } else if slots[i] == 0 {
          slots[i] := tag;
          return;
        }
        i := i + 1;
      }
      slots[counter] := tag;
      if counter == numBlocks - 1 {
        counter := 0;
      } else {
        counter := counter + 1;
      }
    }

    /** The instruction half of a split fully associative cache: scan slots
        `0 .. block_size / 2 - 1`, then evict under `counter`. */
    method AccessSplitInstruction(numBlocks: nat, tag: Word)
      requires ValidState(Config(numBlocks, FullyAssociative, Split), View())
      modifies this, slots
      ensures slots == old(slots)
      ensures View() == AssociativeStep(Config(numBlocks, FullyAssociative, Split), old(View()), Instruction, tag)
    {
      var offset := HalfOffset;
      ghost var probe := Lookup(slots[..], 0, offset, tag);
      accesses := accesses + 1;
      var i := 0;
      while i < offset
        invariant 0 <= i <= offset
        invariant View() == old(View()).(accesses := old(accesses) + 1)
        invariant Lookup(slots[..], i, offset, tag) == probe
      {
        if slots[i] == tag {
          hits := hits + 1;
          return;
        } else if slots[i] == 0 {
          slots[i] := tag;
          return;
        }
        i := i + 1;
      }
      slots[counter] := tag;
      if counter >= offset - 1 {
        counter := 0;
      } else {
        counter := counter + 1;
      }
    }

    /** The data half of a split fully associative cache: scan slots
        `block_size / 2 .. block_size - 1`, then evict under `counter2`. */
    method AccessSplitData(numBlocks: nat, tag: Word)
      requires ValidState(Config(numBlocks, FullyAssociative, Split), View())
      modifies this, slots
      ensures slots == old(slots)
      ensures View() == AssociativeStep(Config(numBlocks, FullyAssociative, Split), old(View()), Data, tag)
    {
      var offset := HalfOffset;
      ghost var probe := Lookup(slots[..], offset, 2 * offset, tag);
      accesses := accesses + 1;
      var i := 0;
      while i < offset
        invariant 0 <= i <= offset
        invariant View() == old(View()).(accesses := old(accesses) + 1)
        invariant Lookup(slots[..], i + offset, 2 * offset, tag) == probe
      {
        if slots[i + offset] == tag {
          hits := hits + 1;
          return;
        } else if slots[i + offset] == 0 {
          slots[i + offset] := tag;
          return;
        }
        i := i + 1;
      }
      slots[counter2] := tag;
      if counter2 >= numBlocks - 1 {
        counter2 := offset;
      } else {
        counter2 := counter2 + 1;
      }
    }
  }
}
