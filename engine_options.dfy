/** `getOptions`: the engine configuration derived from a memtable size, a
    block-cache size and a level fan-out multiplier. The engine's own
    option record is foreign; it is modelled by the fields this function
    sets, with the integer widths of the C++ declarations made explicit. */
module EngineOptions {
  import opened Wrappers

  const Int32Min: int := -0x8000_0000
  const Int32Max: int := 0x7fff_ffff
  const Uint64Modulus: int := 0x1_0000_0000_0000_0000

  /** A value a C++ `int` can hold. */
  predicate IsInt32(x: int) {
    Int32Min <= x <= Int32Max
  }

  /** The implicit conversion of an `int` to the engine's unsigned 64-bit
      size fields (`size_t`, `uint64_t`): negative values wrap around. */
  function ToUint64(x: int): (r: int)
    requires IsInt32(x)
    ensures 0 <= r < Uint64Modulus
    ensures x >= 0 ==> r == x
    ensures x < 0 ==> r == Uint64Modulus + x
  {
    x % Uint64Modulus
  }

  /** The engine's compaction styles; the store always picks `Level`. */
  datatype CompactionStyle = Level | Universal | Fifo

  /** An LRU cache as `NewLRUCache(capacity, num_shard_bits,
      strict_capacity_limit)` would build it. */
  datatype LruCache = LruCache(capacity: int, numShardBits: int, strictCapacityLimit: bool)

  /** The block-based table options the function prepares locally. */
  datatype BlockBasedTableOptions = BlockBasedTableOptions(blockCache: Option<LruCache>, noBlockCache: bool)

  /** Which table factory the returned options carry: the one a
      default-constructed option record already has, or a block-based one
      built from explicit table options. */
  datatype TableFactory = EngineDefault | BlockBased(tableOptions: BlockBasedTableOptions)

  /** The fields `getOptions` assigns, plus the table factory it leaves
      alone. `maxBytesForLevelMultiplier` is a `double` in the engine; every
      `int` converts to it exactly, so it is kept as an integer here. */
  datatype Options = Options(
    createIfMissing: bool,
    compactionStyle: CompactionStyle,
    writeBufferSize: int,
    maxWriteBufferNumber: int,
    minWriteBufferNumberToMerge: int,
    level0FileNumCompactionTrigger: int,
    level0SlowdownWritesTrigger: int,
    level0StopWritesTrigger: int,
    targetFileSizeBase: int,
    maxBytesForLevelBase: int,
    maxBytesForLevelMultiplier: int,
    maxBackgroundCompactions: int,
    maxBackgroundFlushes: int,
    tableFactory: TableFactory,
    useDirectReads: bool,
    useDirectIoForFlushAndCompaction: bool
  )

  /** The arguments `getOptions` can be given without undefined behaviour:
      three `int`s whose product `multiplier * memtable_size` is an `int`
      too. */
  predicate ValidArguments(memtableSize: int, cacheSize: int, multiplier: int) {
    IsInt32(memtableSize) && IsInt32(cacheSize) && IsInt32(multiplier)
    && IsInt32(multiplier * memtableSize)
  }

  /** The local table options: an LRU block cache whose capacity is
      `cacheSize` passed to an unsigned size parameter (no sharding, strict
      limit) when `cacheSize` is non-zero, otherwise
      the block cache switched off. */
  function TableOptionsFor(cacheSize: int): (t: BlockBasedTableOptions)
    requires IsInt32(cacheSize)
    ensures t.blockCache.Some? <==> cacheSize != 0
    ensures t.noBlockCache <==> cacheSize == 0
    // the cache's capacity parameter is unsigned: a negative size wraps around
    ensures t.blockCache.Some? ==> t.blockCache.value.capacity == ToUint64(cacheSize)
    ensures t.blockCache.Some? && cacheSize > 0 ==> t.blockCache.value.capacity == cacheSize
    // a single shard with a strict capacity limit
    ensures t.blockCache.Some? ==> t.blockCache.value.numShardBits == 0 && t.blockCache.value.strictCapacityLimit
  {
    if cacheSize != 0 then
      BlockBasedTableOptions(Some(LruCache(ToUint64(cacheSize), 0, true)), false)
    else
      BlockBasedTableOptions(None, true)
  }

  /** `getOptions(memtable_size, cache_size, multiplier)`. The table options
      are built into a column-family record that is then dropped, so the
      returned record keeps the default table factory. */
  function GetOptions(memtableSize: int, cacheSize: int, multiplier: int): (r: Options)
    requires ValidArguments(memtableSize, cacheSize, multiplier)
    ensures r.createIfMissing && r.compactionStyle == Level
    ensures r.useDirectReads && r.useDirectIoForFlushAndCompaction
    // one memtable, flushed alone, by one background flush; one compaction thread
    ensures r.maxWriteBufferNumber == 1 && r.minWriteBufferNumberToMerge == 1
    ensures r.maxBackgroundCompactions == 1 && r.maxBackgroundFlushes == 1
    // a level-0 file is one flushed memtable, and level 0 holds `multiplier` of them
    ensures r.targetFileSizeBase == r.writeBufferSize
    ensures memtableSize >= 0 ==> r.writeBufferSize == memtableSize
    ensures memtableSize < 0 ==> r.writeBufferSize == Uint64Modulus + memtableSize
    ensures r.level0FileNumCompactionTrigger == multiplier
         && r.level0SlowdownWritesTrigger == multiplier
         && r.level0StopWritesTrigger == multiplier
    // level 1 is as large as a full level 0, each further level `multiplier` times larger
    ensures multiplier >= 0 && memtableSize >= 0 ==>
              r.maxBytesForLevelBase == r.level0FileNumCompactionTrigger * r.writeBufferSize
    ensures multiplier * memtableSize >= 0 ==>
              r.maxBytesForLevelBase == multiplier * memtableSize
    ensures multiplier * memtableSize < 0 ==>
              r.maxBytesForLevelBase == Uint64Modulus + multiplier * memtableSize
    ensures r.maxBytesForLevelMultiplier == multiplier
    ensures r.tableFactory == EngineDefault
  {
    var tableOptions := TableOptionsFor(cacheSize);
    var columnFamilyTableFactory := BlockBased(tableOptions);
    Options(
      createIfMissing := true,
      compactionStyle := Level,
      writeBufferSize := ToUint64(memtableSize),
      maxWriteBufferNumber := 1,
      minWriteBufferNumberToMerge := 1,
      level0FileNumCompactionTrigger := multiplier,
      level0SlowdownWritesTrigger := multiplier,
      level0StopWritesTrigger := multiplier,
      targetFileSizeBase := ToUint64(memtableSize),
      maxBytesForLevelBase := ToUint64(multiplier * memtableSize),
      maxBytesForLevelMultiplier := multiplier,
      maxBackgroundCompactions := 1,
      maxBackgroundFlushes := 1,
      tableFactory := EngineDefault,
      useDirectReads := true,
      useDirectIoForFlushAndCompaction := true
    )
  }

  /** The block-cache size has no effect on the returned options, although
      the table options prepared from it differ exactly in whether a cache
      is present. */
  lemma CacheSizeIgnored(memtableSize: int, cacheSize1: int, cacheSize2: int, multiplier: int)
    requires ValidArguments(memtableSize, cacheSize1, multiplier)
    requires ValidArguments(memtableSize, cacheSize2, multiplier)
    ensures GetOptions(memtableSize, cacheSize1, multiplier) == GetOptions(memtableSize, cacheSize2, multiplier)
    ensures (cacheSize1 == 0) != (cacheSize2 == 0) ==> TableOptionsFor(cacheSize1) != TableOptionsFor(cacheSize2)
  {
  }
}
