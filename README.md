# Rooch DA replay helpers and Move module natives, in Dafny

This project models two pieces of the Rooch node.

**Data-availability (DA) replay helpers** (`crates/rooch/src/commands/da/commands/mod.rs`):
- `collect_chunks` scans a segment directory. It groups the segment files by chunk id and tracks the smallest and largest chunk id.
- `get_tx_list_from_chunk` reads a chunk's segments back and returns the transactions of the chunk's first batch, once that batch verifies.
- `LedgerTxGetter` wraps both over a fixed directory.
- `TxOrderHashBlock` is the `tx_order:tx_hash:block_number` text record, with its `Display` and `FromStr`.
- `TxOrderHashBlockGetter` holds the records loaded from a file of such lines. It offers `slice` (a range by transaction order) and `find_last_executed`. The latter is a binary search, over the local execution store, for the boundary between executed and unexecuted transactions.

**Move module natives** (`moveos/moveos-stdlib/src/natives/moveos_stdlib/move_module.rs`):
- address remapping of a compiled module: its address-identifier table and the address leaves of its constants;
- the natives' gas charges, abort codes and error order;
- the init-function request set in the native context.

Modules:
- `Wrappers`: `Option` and `Result`.
- `Text`: decimal `Display`/`FromStr` for `u64`/`u128`, and `str::split` on one character.
- `SegmentStore`: `collect_chunks`, `get_tx_list_from_chunk`, `LedgerTxGetter`.
- `TxOrderIndex`: `TxOrderHashBlock` and `TxOrderHashBlockGetter`.
- `MoveValues`:
  - the `MoveValue` tree;
  - `module_remap_constant_addresses`;
  - the zipped address mapping;
  - the `CompiledModule` class whose arrays `module_remap_addresses` updates in place.
- `MoveNatives`: the natives and `NativeModuleContext`.

Code outside the core is passed in as function values, and the filesystem is a snapshot value:
- `SegmentDir`: the directory listing and file reads.
- `SegmentCodec`: the `SegmentID` text form, the segment, chunk and batch codec, and batch verification.
- `HashText`: the `H256` text form.
- the transaction store's `get_tx_execution_info`;
- `MoveToolchain`, the Move VM pieces:
  - the bytecode deserializer and serializer;
  - `sort_by_dependency_order` and the bundle verifier;
  - the MoveOS verifier and `Compatibility::check`;
  - the constant codec.

Arithmetic that Rust does in debug builds (overflow panics, out-of-range slicing, `unwrap` on `None`) is the `Panic` error.

## Model

| member | source | states |
|---|---|---|
| SegmentStore.CollectChunks | crates/rooch/src/commands/da/commands/mod.rs:30-60 | A listing error propagates. Otherwise it fails with "no segment found" exactly when no regular file's name parses as a segment id. On success the map sends each chunk id to its segment numbers in listing order, and min/max are keys that bound every key. |
| SegmentStore.SegmentsOfNonEmpty | crates/rooch/src/commands/da/commands/mod.rs:43-46 | A chunk's segment list is non-empty exactly when some discovered segment id names that chunk. |
| SegmentStore.GroupingShape | crates/rooch/src/commands/da/commands/mod.rs:45-58 | Every chunk in the grouping has at least one segment, and the grouping is empty only when no segment was found. |
| SegmentStore.GroupingStep | crates/rooch/src/commands/da/commands/mod.rs:45-46 | A newly seen segment is appended to its own chunk's list (created if new); other chunks are unchanged. |
| SegmentStore.BoundsStep | crates/rooch/src/commands/da/commands/mod.rs:34-52 | Starting from min = u128::MAX and max = 0 and widening with each inserted chunk keeps min and max equal to the smallest and largest key. |
| SegmentStore.GetTxListFromChunk | crates/rooch/src/commands/da/commands/mod.rs:62-82 | Equals the reference reading: segments are read in list order and the first read/decode error wins. Then come chunk assembly, a panic when there is no batch, and verification of the first batch; the result is that batch's transactions. |
| SegmentStore.LoadSegmentsInOrder | crates/rooch/src/commands/da/commands/mod.rs:67-77 | A successful read yields one segment per listed number, each decoded from that number's file, in list order (the list is not sorted). |
| SegmentStore.LoadSegmentsFailure | crates/rooch/src/commands/da/commands/mod.rs:68-76 | Reading fails exactly when some segment fails, and it reports the first failing segment's error. |
| SegmentStore.LoadSegmentsPrefixFailure | crates/rooch/src/commands/da/commands/mod.rs:68-76 | Once a prefix of the list fails, reading stops with that error. |
| SegmentStore.LedgerTxGetter.New | crates/rooch/src/commands/da/commands/mod.rs:105-114 | Succeeds exactly when the directory lists and holds at least one segment. A failure carries the listing's error, or "no segment found". The getter keeps that directory and the exact grouping, and satisfies its invariant: min/max bound the keys and no chunk is empty. |
| SegmentStore.LedgerTxGetter.LoadLedgerTxList | crates/rooch/src/commands/da/commands/mod.rs:116-134 | An unknown chunk is an error when `must_has` is set and "none" otherwise. A known chunk yields the reader's result on its stored segment list, with errors propagated. |
| SegmentStore.LedgerTxGetter.MaxChunkId | crates/rooch/src/commands/da/commands/mod.rs:136-138 | The maximum is a discovered chunk and no discovered chunk exceeds it. |
| SegmentStore.LedgerTxGetter.MinChunkId | crates/rooch/src/commands/da/commands/mod.rs:140-142 | The minimum is a discovered chunk and no discovered chunk is below it. |
| Text.Format | crates/rooch/src/commands/da/commands/mod.rs:166 | Number formatting gives a non-empty string of decimal digits without leading zero (unless the number is 0). |
| Text.ParseFormat | crates/rooch/src/commands/da/commands/mod.rs:180-182 | Parsing a formatted number gives it back, for any width it fits in. |
| Text.ParseInRange | crates/rooch/src/commands/da/commands/mod.rs:180-182 | A parsed `u64`/`u128` is below its type's limit, and a string without a digit never parses. |
| Text.SplitCount | crates/rooch/src/commands/da/commands/mod.rs:176 | Splitting on `:` yields one more part than there are separators, empty parts included. |
| Text.SplitPrefix | crates/rooch/src/commands/da/commands/mod.rs:176 | A separator-free field followed by `:` becomes a part of its own before the parts of the rest. |
| Text.SplitWhole | crates/rooch/src/commands/da/commands/mod.rs:176 | A separator-free string splits into itself alone. |
| TxOrderIndex.FromStrFieldCount | crates/rooch/src/commands/da/commands/mod.rs:176-179 | A line whose number of `:` is not 2 is "invalid format", and every parsed line has exactly two. |
| TxOrderIndex.DisplayFromStr | crates/rooch/src/commands/da/commands/mod.rs:162-189 | Parsing a displayed record gives the same record back, provided the hash's text form round-trips and contains no `:`. |
| TxOrderIndex.TxOrderHashBlockGetter.LoadFromFile | crates/rooch/src/commands/da/commands/mod.rs:197-212 | An open error propagates. Otherwise the getter holds the parsed lines in order with the given store, or the load fails with the first unreadable or malformed line's error. |
| TxOrderIndex.ParseLinesAllOrNothing | crates/rooch/src/commands/da/commands/mod.rs:202-206 | Loading succeeds exactly when every line is readable and parses. |
| TxOrderIndex.ParseLinesRecords | crates/rooch/src/commands/da/commands/mod.rs:202-206 | A successful load has one record per line, each the parse of its line, in file order. |
| TxOrderIndex.ParseLinesPrefixFailure | crates/rooch/src/commands/da/commands/mod.rs:202-206 | The first failing line decides the load's error. |
| TxOrderIndex.SearchOrder | crates/rooch/src/commands/da/commands/mod.rs:219-221 | A found index holds the searched order. On a sorted index "not found" means no record has that order. |
| TxOrderIndex.TxOrderHashBlockGetter.Slice | crates/rooch/src/commands/da/commands/mod.rs:214-230 | An absent start order is always "start not found", checked before any arithmetic. On a sorted index, "start not found" also implies the start is absent. A panic needs a record with the start order plus either `end < start` or a range past the end. Success returns `end - start + 1` consecutive records beginning at a record with the start order. |
| TxOrderIndex.SliceContiguous | crates/rooch/src/commands/da/commands/mod.rs:214-230 | On an index of consecutive orders from `first`, the slice succeeds exactly when `first <= start <= end < first + len`, and its j-th record has order `start + j`. |
| TxOrderIndex.SliceContiguousSuccess | crates/rooch/src/commands/da/commands/mod.rs:214-230 | On an index of consecutive orders, a successful slice lies within the index and its j-th record has order `start + j`. |
| TxOrderIndex.SliceContiguousInRange | crates/rooch/src/commands/da/commands/mod.rs:214-230 | On an index of consecutive orders, every range with `first <= start <= end < first + len` slices successfully. |
| TxOrderIndex.TxOrderHashBlockGetter.HasExecuted | crates/rooch/src/commands/da/commands/mod.rs:264-267 | True exactly when the store holds execution info for the hash; store errors propagate. |
| TxOrderIndex.TxOrderHashBlockGetter.FindLastExecuted | crates/rooch/src/commands/da/commands/mod.rs:232-262 | Covers every outcome of the search:<br>• an empty index gives none, with no store query;<br>• every error is some record's store error;<br>• none means the first record is not executed;<br>• a returned record is executed and is the last record or followed by an unexecuted one;<br>• when exactly the records below k are executed, the result is record k-1 (none for k = 0);<br>• every query hits a valid index, and there are at most about log2(2n) + 1 of them. |
| TxOrderIndex.TxOrderHashBlockGetter.BoundaryUnique | crates/rooch/src/commands/da/commands/mod.rs:253-261 | When exactly the records below k are executed, the only executed record followed by an unexecuted one (or by nothing) is k-1. |
| TxOrderIndex.TxOrderHashBlockGetter.SettledOutcome | crates/rooch/src/commands/da/commands/mod.rs:252-261 | Once the search has settled, the final decision is consistent. None means the first record is not executed. A returned record is an executed record followed by an unexecuted one or by nothing. Under an exact executed prefix [0, k) the answer is record k-1. |
| TxOrderIndex.TxOrderHashBlockGetter.FailureNoPrefix | crates/rooch/src/commands/da/commands/mod.rs:244-253 | A store error on any queried record means no exact executed prefix exists, so erroring out loses no answer. |
| TxOrderIndex.TxOrderHashBlockGetter.MonotoneHasBoundary | crates/rooch/src/commands/da/commands/mod.rs:232-262 | If every store query answers and execution is downward closed, the executed records form a prefix [0, k), which is the case the search is meant for. |
| MoveValues.RemapValueSpec | moveos/moveos-stdlib/src/natives/moveos_stdlib/move_module.rs:344-354 | Remapping a constant value keeps its shape: variants, vector lengths, and all non-address, non-vector parts unchanged. It replaces the reachable address leaves, left to right, by one mapping lookup each. |
| MoveValues.RemapUnmapped | moveos/moveos-stdlib/src/natives/moveos_stdlib/move_module.rs:344-354 | A value none of whose reachable addresses is a key of the mapping is left unchanged. |
| MoveValues.RemapIdempotentWithoutChains | moveos/moveos-stdlib/src/natives/moveos_stdlib/move_module.rs:344-354 | When no new address is itself an old address, remapping twice is the same as remapping once. |
| MoveValues.SingleLookup | moveos/moveos-stdlib/src/natives/moveos_stdlib/move_module.rs:373-377 | Lookups are not chained: with `a -> b` and `b -> c`, `a` becomes `b`. |
| MoveValues.ZipMappingLastWins | moveos/moveos-stdlib/src/natives/moveos_stdlib/move_module.rs:308-316 | The mapping's keys are exactly the old addresses. Each maps to the new address paired with its last occurrence. |
| MoveValues.CollectAllSpec | moveos/moveos-stdlib/src/natives/moveos_stdlib/move_module.rs:324-327 | Collecting results succeeds exactly when every element converts, giving the conversions in order. Otherwise it fails with the first failing element's error. |
| MoveValues.CollectAllFirstFailure | moveos/moveos-stdlib/src/natives/moveos_stdlib/move_module.rs:324-327 | When element j is the first to fail, collecting fails with element j's error. |
| MoveValues.CompiledModule.RemapAddresses | moveos/moveos-stdlib/src/natives/moveos_stdlib/move_module.rs:356-386 | Every address-table entry becomes its lookup. On success every constant is re-encoded from its remapped value, and the module equals the value-level remapped module. A constant that fails to decode or encode stops the rewrite with that error: earlier constants rewritten, later ones untouched. |
| MoveValues.RemapModuleDataKeeps | moveos/moveos-stdlib/src/natives/moveos_stdlib/move_module.rs:356-386 | Remapping rewrites only the address table and the constant pool. The self handle, the name, every other table and both table sizes are kept, and the module's own address becomes its lookup. |
| MoveValues.CompiledModule.constructor | moveos/moveos-stdlib/src/natives/moveos_stdlib/move_module.rs:324-327 | A mutable module holds exactly the deserialized tables, in fresh arrays. |
| MoveNatives.ChargePerByte | moveos/moveos-stdlib/src/natives/moveos_stdlib/move_module.rs:110-117 | The charging loop ends at base plus per-byte times the bundle's total byte count. |
| MoveNatives.ModuleNameInner | moveos/moveos-stdlib/src/natives/moveos_stdlib/move_module.rs:66-86 | A deserialization error propagates. Otherwise it returns the module's name at cost base + per_byte * len(name); the guard on per_byte > 0 does not change the charge. |
| MoveNatives.CheckCompatibilityInner | moveos/moveos-stdlib/src/natives/moveos_stdlib/move_module.rs:240-270 | Fails exactly when either module fails to deserialize. The new module's error comes first, then the old module's own error. Otherwise the charge is base + per_byte * (len(new) + len(old)), and it aborts with invalid-argument 3 exactly when the upgrade from old to new is incompatible. |
| MoveNatives.CheckModulesSpec | moveos/moveos-stdlib/src/natives/moveos_stdlib/move_module.rs:132-154 | The sorted modules pass exactly when each lives at the account and the MoveOS verifier accepts it. The names are then all names in sorted order, and the init names are the names of the modules reported to have an init function. Otherwise the first failing module gives invalid-argument 1 (wrong address) or 2 (verifier error). |
| MoveNatives.CheckModulesPass | moveos/moveos-stdlib/src/natives/moveos_stdlib/move_module.rs:132-154 | The per-module checks succeed exactly when every module lives at the account and the MoveOS verifier accepts it. |
| MoveNatives.CheckModulesNames | moveos/moveos-stdlib/src/natives/moveos_stdlib/move_module.rs:132-154 | After a successful check the names are those of all modules in sorted order, and the init names are those reported to have an init function. |
| MoveNatives.CheckModulesRejects | moveos/moveos-stdlib/src/natives/moveos_stdlib/move_module.rs:132-154 | A failing check has a first failing module, all earlier ones passing. Its abort code is invalid-argument 1 for a wrong address and 2 for a verifier error. |
| MoveNatives.CheckModulesPrefixFailure | moveos/moveos-stdlib/src/natives/moveos_stdlib/move_module.rs:132-154 | The first module that fails decides the abort code. |
| MoveNatives.SortAndVerifyModulesInner | moveos/moveos-stdlib/src/natives/moveos_stdlib/move_module.rs:104-180 | Equals the reference outcome: charge for the bytes, then these steps in order, each failure propagating:<br>• deserialize the bundle;<br>• sort it by dependencies (a cycle is CYCLIC_MODULE_DEPENDENCY);<br>• run the bundle verifier;<br>• check each module as above, an abort carrying the full charge. |
| MoveNatives.NativeModuleContext.constructor | moveos/moveos-stdlib/src/natives/moveos_stdlib/move_module.rs:49-54 | A new context has no requested init functions. |
| MoveNatives.NativeModuleContext.RequestInitFunctions | moveos/moveos-stdlib/src/natives/moveos_stdlib/move_module.rs:197-223 | The set only grows. It succeeds exactly when every name is a valid identifier; it then charges base + per_byte * total name bytes and adds every (account, name). Otherwise it fails with TYPE_RESOLUTION_FAILURE at the first invalid name, keeping the names before it. |
| MoveNatives.RemapModuleAddressesSpec | moveos/moveos-stdlib/src/natives/moveos_stdlib/move_module.rs:287-342 | A length mismatch aborts with invalid-argument 4, charging only the base, whatever the modules. A successful remap returns one binary per input module in order: that module deserialized, remapped through the zipped mapping and serialized. |
| MoveNatives.RemapModuleAddressesInner | moveos/moveos-stdlib/src/natives/moveos_stdlib/move_module.rs:287-342 | Equals the reference outcome: the length check, the per-byte charge, then deserializing every module. Then each module is remapped in place and serialized (failures are VALUE_SERIALIZATION_ERROR), the first error stopping the native. |
| MoveNatives.RemapAndSerializeModule | moveos/moveos-stdlib/src/natives/moveos_stdlib/move_module.rs:329-338 | One step of the loop: a fresh mutable module is remapped in place and serialized. The result equals the reference remap-and-serialize of that module; a remap error propagates and a serializer failure is VALUE_SERIALIZATION_ERROR. |

## Left out

- I/O is a snapshot: the directory listing, file reads and the index file's lines are values. Partial reads, concurrent changes and path handling are not modelled. `SegmentID`'s text form, the segment/chunk/batch codec, `H256`'s text form, the transaction store and the Move VM pieces are foreign code passed in as functions.
- `build_rooch_db` and `get_execution_info` (a pass-through of the store lookup) are not modelled. The `with_capacity` pre-allocation has no observable effect and is also left out.
- The DA command submodules (`dump_tx_order_hash`, `exec`, `namespace`, `unpack`) are not part of this model.
- `TxOrderIndex.TxOrderHashBlockGetter.Slice`: overflow follows debug builds (`end < start` panics). A release build wraps instead: for `end == start - 1` it returns an empty vector, and for smaller `end` it panics on the slice bounds.
- `SegmentStore.LedgerTxGetter.MaxChunkId` and `MinChunkId` require the getter invariant that `new` establishes. A getter value built some other way is not considered.
- `SegmentStore.CollectChunks` does not model the order in which `read_dir` returns entries: the listing is taken in a given order. A `HashMap`'s iteration order is not modelled either; the chunk map is a Dafny map.
- `MoveValues.RemapValue`: `module_remap_constant_addresses` updates the value in place through `&mut`. Here it is a function on values, so aliasing inside the tree is not captured. As in the source, addresses inside structs and other variants are not remapped.
- Gas is unbounded: the saturating arithmetic of `InternalGas` is not modelled.
- Type errors of the VM's argument values (`pop_arg!`, `value_as`, `unpack`, `Vector::pack`) are not modelled, since well-typed calls never raise them. That includes the struct-field error in `request_init_functions`.
- `MoveNatives.CheckCompatibilityInner` assumes `Compatibility::full_check()` always needs checking, as the full check does.
- The `resolver` of `NativeModuleContext` is only reached through the foreign MoveOS verifier.
- The `SignatureToken` of a constant is abstract, and the module's tables other than the address table and the constant pool are one opaque byte string.
- `binary_search_by` on an index that is not sorted by order specifies neither which of several equal records it finds nor whether it finds the start at all. `SearchOrder` fixes one search, and the contracts about it hold for any found index; "not found" is tied to absence only on a sorted index.
