# Splaying LSM store: a Dafny model

This project models the splaying layer that sits on a RocksDB-style LSM
engine. It covers four parts:

- **The merge operator `SplayMerge`.** `FullMergeV2` folds an optional
  stored value and an ordered list of pending operands into one value.
  It starts from the stored value, or from the empty string, and every
  operand in turn overwrites the result, so the last operand wins.
- **The compaction filter `SplayFilter`.** `Filter` and
  `FilterMergeOperand` drop an entry exactly when its bytes are the
  reserved placeholder `"this key was splayed"`. The code calls this
  constant a hack (`splaylsm/splay_filter.h:11-12`); the merge operator
  asserts that it never receives it as an operand.
- **`getOptions`.** It derives the engine configuration from a memtable
  size, a block-cache size and a fan-out multiplier.
- **The `LSMTree` facade.** It holds the open engine, the options, the
  status of the last call and the splay flag. `Insert` writes through the
  engine and `Get` reads through it.

Modules:

- `wrappers.dfy` (`Wrappers`): `Option`, which stands in for the nullable
  `existing_value` pointer.
- `splay_filter.dfy` (`SplayFilter`): the merge operator and the filter.
  `Fold` is the reference definition of the merge loop, one overwrite per
  operand, and `MergedValue` starts it from the stored value or `""`.
  `FullMergeV2` is a method with the source's loop, proved to compute
  `MergedValue`. The lemmas prove last-wins, the empty default,
  regrouping invariance and that the placeholder is never produced.
- `engine_options.dfy` (`EngineOptions`): `GetOptions` returns a record of
  the fields the function assigns. C++ `int` arguments are bounded to 32
  bits. Conversions into the engine's unsigned 64-bit size fields wrap
  explicitly.
- `splay_lsm.dfy` (`SplayLsm`): class `LSMTree`, whose engine is a
  `map<string, string>`. `Run` is a function over request histories that
  serves as the facade's reference behaviour. `Replay` drives a real
  `LSMTree` and is proved to agree with `Run` for either value of the
  splay flag.

A splaying design can be imagined in which every stored value carries a
one-byte tag with `merged` and `splayed` bits, the merge operator sets
`merged`, and `Get` writes a `merged` entry back to promote it. The code
does none of this, and the model follows the code:

- There is no tag byte, no `merged`/`splayed` bits and no write-back
  on `Get`. `Get` is a plain lookup and `Insert` a plain `Put`.
- The merge operator does not set any flag. It keeps the last operand
  (`splaylsm/splay_filter.h:23-26`).
- `getOptions` installs neither the merge operator nor the compaction
  filter. As shown, the store never invokes them. They are modelled as
  the stand-alone callbacks they are.
- `getOptions` builds the block-cache table options into a local
  column-family record that is then discarded
  (`splaylsm/splaylsm.cc:41-49`). The returned options therefore do not
  depend on `cache_size`. `GetOptions` keeps the engine's default table
  factory, and `CacheSizeIgnored` states the independence.
- The header declares `Status Insert(key, value)` and
  `Status Get(key, std::string*)` (`splaylsm/splaylsm.h:29-30`). The
  definitions omit the return types, and `Get` passes a `PinnableSlice`.
  The model follows the header.
- The header's constructor takes `isSplay`; the definition
  (`splaylsm/splaylsm.cc:61-65`) does not, and never sets `is_splay_`.
  The model follows the header and stores the flag. Nothing reads it.
- In the constructor, `Status s = DB::Open(...)` declares a local that
  shadows the field `s`. The field keeps its default-constructed value,
  `Ok`.

## Model

| member | source | states |
|---|---|---|
| `SplayFilter.FullMergeV2` | splaylsm/splay_filter.h:16-28 | always reports success; the new value is the last operand when there is one, otherwise the stored value, otherwise empty; any earlier content of the output buffer is discarded; requires that no operand is the placeholder (the debug assertion) |
| `SplayFilter.FoldLastWins` | splaylsm/splay_filter.h:23-26 | overwriting in operand order ends on the last operand, or on the starting value when there are no operands |
| `SplayFilter.FoldRegroup` | splaylsm/splay_filter.h:18-26 | folding one operand list and then another equals folding their concatenation |
| `SplayFilter.FoldNeverSentinel` | splaylsm/splay_filter.h:18-26 | a fold whose start and operands are not the placeholder never yields the placeholder |
| `SplayFilter.MergeResult` | splaylsm/splay_filter.h:18-26 | with operands the result is the last operand whatever was stored; with none it is the stored value byte for byte, or the empty string when nothing was stored |
| `SplayFilter.MergeRegroup` | splaylsm/splay_filter.h:18-26 | merging a prefix of the operands and then merging that result with the remaining operands equals merging all operands at once |
| `SplayFilter.MergeNeverSentinel` | splaylsm/splay_filter.h:12-26 | if neither the stored value nor any operand is the placeholder, the merge result is not the placeholder |
| `SplayFilter.Filter` | splaylsm/splay_filter.h:35-39 | drop if and only if the stored value equals the placeholder; `new_value` and `value_changed` come back exactly as given |
| `SplayFilter.FilterMergeOperand` | splaylsm/splay_filter.h:41-44 | drop an operand if and only if it equals the placeholder |
| `SplayFilter.FilterRulesAgree` | splaylsm/splay_filter.h:35-44 | both filter entry points make the same decision on the same bytes, and neither decision depends on the level or the key |
| `SplayFilter.MergedValueSurvivesFilter` | splaylsm/splay_filter.h:16-44 | a value the merge operator produced from non-placeholder inputs is kept by both filter entry points at every level and for every key |
| `EngineOptions.ToUint64` | splaylsm/splaylsm.cc:18-29 | storing an `int` into an unsigned 64-bit option keeps non-negative values and wraps negative ones modulo 2^64 |
| `EngineOptions.TableOptionsFor` | splaylsm/splaylsm.cc:41-46 | the local table options carry an LRU cache exactly when `cache_size` is non-zero, and set `no_block_cache` exactly when it is zero; the cache's capacity is `cache_size` converted to the unsigned size parameter, so a positive size is kept and a negative one wraps modulo 2^64; the cache has zero shard bits and a strict capacity limit |
| `EngineOptions.GetOptions` | splaylsm/splaylsm.cc:6-59 | creates if missing; level compaction; direct reads and direct I/O for flush and compaction; one memtable, merged alone; one background compaction and one flush; `write_buffer_size` equals `target_file_size_base`, which equals `memtable_size` when non-negative and wraps modulo 2^64 when negative; all three level-0 triggers and the level multiplier equal `multiplier`; `max_bytes_for_level_base` is the product `multiplier * memtable_size` when that is non-negative and wraps modulo 2^64 when negative, which for non-negative arguments makes level 1 a full level 0 of `multiplier` memtables; the default table factory is left in place; requires 32-bit arguments whose product does not overflow |
| `EngineOptions.CacheSizeIgnored` | splaylsm/splaylsm.cc:41-58 | two cache sizes give identical options, even when one of them enables the block cache and the other disables it |
| `SplayLsm.LSMTree.constructor` | splaylsm/splaylsm.cc:61-65 | uses the default sizes 131072 and 131072 and multiplier 2, giving a 131072-byte write buffer, a 262144-byte level base and level-0 triggers of 2; the store holds what is already on disk; the status field stays `Ok`; the splay flag is recorded |
| `SplayLsm.LSMTree.Insert` | splaylsm/splaylsm.cc:67-72 | the key maps to the new value and every other key keeps its entry; the returned status and the status field are both `Ok` |
| `SplayLsm.LSMTree.Get` | splaylsm/splaylsm.cc:74-79 | a stored key yields its value with `Ok`; a missing key yields `NotFound`; the store does not change; the status field holds the returned status |
| `SplayLsm.OtherRequestsKeepKey` | splaylsm/splaylsm.cc:67-79 | requests that do not insert a key leave that key's presence and value unchanged |
| `SplayLsm.ReadYourWrites` | splaylsm/splaylsm.cc:67-79 | a `Get` returns `Ok` and the inserted value after an `Insert` of the same key, whatever other keys were written in between |
| `SplayLsm.Replay` | splaylsm/splaylsm.h:15-31 | driving a freshly opened `LSMTree` with any request sequence yields exactly the replies and final contents of the reference history function |
| `SplayLsm.SplayModeChangesNothing` | splaylsm/splaylsm.h:24-27 | the same requests get the same replies and leave the same store contents with the splay flag on and off, and both equal the reference history's |
| `SplayLsm.SplayExample` | splaylsm/splay_example.cc:16-26 | inserting `"key1" -> "value"` and reading it back gives two `Ok` statuses and exactly `"value"`, whatever the store held before |

## Left out

- The engine itself is not part of this model. `DB::Open`, `Put`, `Get`,
  `NewLRUCache`, `NewBlockBasedTableFactory`, compaction scheduling and
  persistence are foreign library calls. The engine is a map, and what
  is stored at the path when the store opens is a constructor parameter.
- Engine failures are not modelled. Opening and writing always succeed,
  so the `assert(s.ok())` after `DB::Open` and `Put` always holds. I/O
  and resource errors are foreign.
- SplayLsm.LSMTree.Get: on a missing key the source's `assert(s.ok())`
  fails in debug builds. The model returns `NotFound` instead of
  aborting. It also does not model what the caller's output string holds
  then, and yields `""`.
- The destructor `~LSMTree` is declared and never defined, so it is not
  modelled.
- The merge operator and filter run on engine threads, possibly
  concurrently or retried. They are stateless, so pure functions capture
  them, but the engine's scheduling is not modelled.
- `Name()` of both callbacks only returns a fixed identifier for the
  engine's registry. It is not modelled.
- RocksDB's default option values are not modelled. `Options` holds only
  the fields `getOptions` assigns, plus the table factory it leaves
  alone.
- EngineOptions.GetOptions: `max_bytes_for_level_multiplier` is a
  `double` in the engine. It is kept as an integer, which is exact for
  every 32-bit `int`.
- The benchmark drivers and the plotting script are not modelled. Their
  random number generation, floating-point probabilities, timing and
  shell calls are outside this model.
