# pymilvus: codec, iterator, writer, cache and retry models

A Dafny model of the algorithms and state machines inside pymilvus, the Python client of the Milvus vector
database, with proofs of what they promise. `dafny verify dfyconfig.toml` checks everything.

| file | models |
|---|---|
| `JsonRewrite.dfy` | the explicit-stack rewrite of nested values before JSON encoding, on heap objects |
| `Sparse.dfy` | sparse vectors to bytes and back |
| `Columns.dfy` | vector columns: column-wise encoder, row decoder with its prefix-sum cache, `len_of` |
| `RowPacking.dfy` | row-wise packing of byte vectors through a shared cache, against the column-wise encoder |
| `StructArray.dfy` | arrays of structs, split into columns and rebuilt |
| `SearchIterator.dfy` | `SearchIteratorV2` over an arbitrary server |
| `Buffer.dfy`, `BulkWriter.dfy`, `BulkJson.dfy` | the column buffer, row verification, the JSON file |
| `LocalBulkWriter.dfy`, `BulkEndToEnd.dfy` | producers, commits and flush threads, step by step; from rows to files |
| `Lru.dfy`, `CacheKeys.dfy`, `CollectionTs.dfy` | the LRU cache, its keys, session timestamps |
| `SchemaCache.dfy`, `SchemaRepair.dfy` | the schema cache, the mismatch retry, and both retries together |
| `Retry.dfy` | the RPC retry loop |
| `GlobalStub.dfy` | racing topology refreshes and fail-over to the primary |
| `Prelude.dfy` | result types and Python's ordered dict |

What is not pymilvus is explicit: the search server is any function of the request and of time (it may fail, repeat
itself, or never end; only under an external filter, where the refill loop stops at an empty answer, is it assumed to
stay empty once it is), the schema server and the other users of a cache are functions of time, threads are atomic steps between lock operations, `LRUCache` is a
list of keys in order of use.
Loops and objects of the source are methods and classes, each proved against a function or a ghost history; the
theorems are lemmas about those.

The code does not always do what its documentation suggests. In each such case the model follows the code, and the
exact condition is a lemma:

- Half-precision vectors of odd byte length do not survive a round trip (`Columns.DenseRoundTrip`) and break
  `len_of` (`Columns.DenseLenAgrees`); a sparse column without any value has no length (`Columns.SparseLenAgrees`).
- Row-wise and column-wise packing give the same bytes but not always the same `dim` (`RowPacking.RowDimAgrees`).
- A batch size of zero passes the check and returns nothing (`SearchIterator.AllReturnedIff`).
- A list of structs without sub-fields, or with a zero-width first one, is not rebuilt
  (`StructArrays.RoundTripIff`).
- Two `commit` calls that overlap before launching their flush can lose a row and write others twice; one of them
  may be the call that `append_row` makes, whose lock keeps out only other such calls
  (`LocalBulkWriter.RowsCanBeLostIff`, `RaceIsReachable`).
- The bulk writer counts rows that its buffer then refuses for a `$meta` value that is not a dict
  (`BulkWriters.CounterIff`; `CountedThenRefused` is one). A row that leaves a nullable half-precision field absent
  or None is accepted, and then no JSON file can be written (`BulkJson.JsonWrittenIff`; `NullVectorSpoilsJson` is
  one).
- A float beyond the float32 range passes the checks of the sparse encoder and makes the packing raise
  (`Sparse.EncodeAccepts`).
- A schema that another thread fetched before the invalidation and stores after it defeats the schema repair
  (`SchemaRepair.StalePutDefeatsRepair`).
- A primary whose handler could not be created is not tried again until the primary moves
  (`GlobalStubs.FailedCreationSticks`).

## Model

| member | source | states |
|---|---|---|
| JsonRewrite.MapLeavesIsNative | pymilvus/client/entity_helper.py:193-204 | converting every leaf leaves no numpy leaf at any depth, and changes exactly the values that have one |
| JsonRewrite.MapLeavesAt | pymilvus/client/entity_helper.py:193-240 | input and result have the same places; in each a numpy scalar became the Python scalar with its payload, an array the list of its own elements, and any other leaf or container is the same, keys in order |
| JsonRewrite.CompleteDenotes | pymilvus/client/entity_helper.py:206-240 | objects that are consistent one by one and have no open slot form a correct copy of the whole value |
| JsonRewrite.TopIsNext | pymilvus/client/entity_helper.py:225-238 | the stack entry on top is for the first open slot of its container, so keys are written in their original order |
| JsonRewrite.NextPending | pymilvus/client/entity_helper.py:212-238 | after each turn the stack again holds exactly one entry for each open slot |
| JsonRewrite.MeasureDrops | pymilvus/client/entity_helper.py:212-238 | the total size of the stacked values drops at every turn, so the loop ends on every finite value |
| JsonRewrite.PreprocessNumpyTypes | pymilvus/client/entity_helper.py:192-240 | the result stands for the leaf-converted value, in objects of its own; no existing object is modified |
| Sparse.StableSortUnique | pymilvus/client/entity_helper.py:82 | an ordered list with the same pairs in the same order for every index is unique, so any stable sort is the one modelled |
| Sparse.EncodeAccepts | pymilvus/client/entity_helper.py:83-93 | a row is encoded exactly when all its indices are in range and all values are float32 numbers; what passes the two checks and is refused is a number beyond float32, by `struct.pack` |
| Sparse.EncodeRange | pymilvus/client/entity_helper.py:83-93 | an index is in range from 0 to 2^32 - 2 |
| Sparse.FirstErrorIs | pymilvus/client/entity_helper.py:83-89 | the first refused pair in sorted order decides the error, its index before its value |
| Sparse.EncodedRecord | pymilvus/client/entity_helper.py:91-93 | record j of the encoding is index and value bits of sorted pair j, little-endian, four bytes each |
| Sparse.SparseFloatRowToBytes | pymilvus/client/entity_helper.py:77-93 | the check loop and `struct.pack` return the encoding, or the error of the first offending pair in sorted order, or the overflow of the packing |
| Sparse.LittleEndianRoundTrip | pymilvus/client/entity_helper.py:92-93 | 32-bit words survive packing and unpacking |
| Sparse.SparseParseSingleRow | pymilvus/client/utils.py:451-458 | the comprehension decodes any byte string whose length is a multiple of 8 and refuses the others |
| Sparse.DecodedRecord | pymilvus/client/utils.py:451-458 | any data of whole records, the value of an index is that of its last record |
| Sparse.DecodedKey | pymilvus/client/utils.py:451-458 | only indices of records are keys |
| Sparse.RoundTrip | pymilvus/client/entity_helper.py:77-93 | decoding an encoded row, unsorted or with duplicates, gives the last value given to each index, keys ascending; the length is 8 bytes a pair |
| Columns.EntityToFieldData | pymilvus/client/entity_helper.py:715-804 | the encoder's mask, compacted cells and dim, and its errors, for all six vector types |
| Columns.EncodedHeader | pymilvus/client/entity_helper.py:715-800 | the mask flag by flag, all nulls when an omitted column has a mask, and `dim` in elements for each dense type |
| Columns.DenseRefusedIff | pymilvus/client/entity_helper.py:715-800 | a dense column is refused exactly for a null without a mask |
| Columns.SparseRefusedIff | pymilvus/client/entity_helper.py:77-93 | a sparse column is refused exactly for a null without a mask or for a row that is refused |
| Columns.FirstRefusedRow | pymilvus/client/entity_helper.py:77-93 | the first refused row decides the error |
| Columns.SparseDimIsMax | pymilvus/client/entity_helper.py:95-130 | `dim` of a sparse column is one more than the largest last-given index of its rows, or zero |
| Columns.RowExtractor.GetPhysicalIndex | pymilvus/client/entity_helper.py:1059-1077 | the cached prefix sum is the number of valid rows before the given one, or the row itself without a mask |
| Columns.RowExtractor.CheckAppend | pymilvus/client/entity_helper.py:1158-1219 | what each branch reads for a row, with slice bounds always in range |
| Columns.DenseRowIs | pymilvus/client/entity_helper.py:1158-1219 | any dense column: a row is the slice at its place and width, a list of floats for float vectors and else bytes, or stays unset when the buffer ends before |
| Columns.RowErrors | pymilvus/client/entity_helper.py:1079-1219 | exactly when a row is None, an index error or refused, for any column |
| Columns.CompactAt | pymilvus/client/entity_helper.py:1072-1077 | the vector of a non-null row is stored after exactly the non-null rows before it |
| Columns.StoredAt | pymilvus/client/entity_helper.py:724-780 | the encoder's mask and the prefix sum lead to where a row was stored |
| Columns.FlattenAt | pymilvus/client/entity_helper.py:754-780 | slice p of a flat buffer of equal-length vectors is vector p |
| Columns.DenseRoundTrip | pymilvus/client/entity_helper.py:1158-1219 | decoding row i of the encoded column gives None for a null row and else the original floats, or bytes, in order, exactly when the row is null, the type is not half-precision, or the byte length is even |
| Columns.SparseRoundTrip | pymilvus/client/entity_helper.py:1202-1209 | decoding row i of a sparse column, nullable or not, gives that row's last-value-wins map, or None |
| Columns.DenseLenAgrees | pymilvus/client/utils.py:175-205 | the exact condition under which `len_of` of an encoded column is the number of rows |
| Columns.SparseLenAgrees | pymilvus/client/utils.py:166-210 | a sparse column has its number of rows as length exactly when some row is not null; else the type is unknown to `len_of` |
| RowPacking.PackFieldValue | pymilvus/client/entity_helper.py:528-652 | one value of one field: exactly which forms are refused, the `dim` that is set, its chunk is appended under its own message, other messages and entries are untouched, and a refused value changes nothing |
| RowPacking.FlushVectorBytes | pymilvus/client/entity_helper.py:407-423 | the field gets the concatenation of its chunks and its cache entry is gone |
| RowPacking.PackAndFlush | pymilvus/client/prepare.py:795-882 | over any interleaving of fields, every field ends with exactly its own non-null values in order, and the cache is empty |
| RowPacking.RowBytesAgree | pymilvus/client/entity_helper.py:754-780 | row-wise packing and the column-wise encoder give the same mask and bytes |
| RowPacking.RowDimAgrees | pymilvus/client/entity_helper.py:528-652 | for equal-length vectors, exactly when both give the same dim |
| StructArrays.ConvertToArray | pymilvus/client/entity_helper.py:299-326 | each element type fills its slot with the values; an unknown one is refused |
| StructArrays.ConvertToArrayOfVector | pymilvus/client/entity_helper.py:350-392 | all vectors of a row one after another, or a refusal if the type or the form of any value is not accepted |
| StructArrays.VectorsRefusedIff | pymilvus/client/entity_helper.py:329-392 | a row of vectors is refused exactly for a sparse type or for bytes or arrays of a form its type does not take |
| StructArrays.GetArrayLength | pymilvus/client/entity_helper.py:1246-1254 | the length of whichever list the message holds |
| StructArrays.GetArrayValueAtIndex | pymilvus/client/entity_helper.py:1257-1263 | the element of whichever list the message holds, or None past its end |
| StructArrays.SplitSubField | pymilvus/client/entity_helper.py:295-392 | converting the rows in turn gives the sub-field's column |
| StructArrays.ExtractStructArray | pymilvus/client/entity_helper.py:1266-1425 | counting by the first positive sub-field, then building struct by struct, with the errors at the point where the code raises them |
| StructArrays.CountIsFirst | pymilvus/client/entity_helper.py:1295-1328 | the number of structs is the first count that is not zero |
| StructArrays.VectorFieldIs | pymilvus/client/entity_helper.py:1300-1328 | vectors are counted by their width in floats or bytes, a width of zero cannot be, and past the last vector there is None |
| StructArrays.OtherFieldIs | pymilvus/client/entity_helper.py:1332-1421 | scalars past the end, missing rows and unknown vector types |
| StructArrays.OtherFieldRaises | pymilvus/client/entity_helper.py:1413-1421 | a sub-field of another type is an error as soon as there is a struct to build |
| StructArrays.ComesBackOnce | pymilvus/client/entity_helper.py:1346-1410 | a scalar comes back itself, a float vector as its floats, an int8 one as its bytes, a binary one as one byte string, 16-bit ones as pairs of bytes in order; so what comes back determines the value |
| StructArrays.ShapeInjective | pymilvus/client/entity_helper.py:1353-1410 | the list shape a vector comes back in determines the vector |
| StructArrays.SplitAt | pymilvus/client/entity_helper.py:1335-1410 | sub-field, row and struct index lead back to the value that was split off, in the list shape of its type |
| StructArrays.StructRebuilt | pymilvus/client/entity_helper.py:1332-1423 | one rebuilt struct has the sub-fields as keys, in order, and the original values |
| StructArrays.RoundTripIff | pymilvus/client/entity_helper.py:1266-1425 | any row of the split columns is rebuilt to the original list of structs exactly when: an empty row has no zero-width vector sub-field, another row has a first sub-field and it has a width |
| StructArrays.RoundTrip | pymilvus/client/entity_helper.py:1266-1425 | with sub-fields of positive width every row comes back, the empty list included |
| SearchIterator.SearchIteratorV2.Fetch | pymilvus/client/search_iterator.py:97-115 | one request; the answer's bound enters the parameters, its token and timestamp where none was set; the rest stays; a missing token is an error and changes nothing |
| SearchIterator.SearchIteratorV2.WrapReturnRes | pymilvus/client/search_iterator.py:186-198 | for a positive remaining count, as `next` has: the page is cut at it, and it drops by the uncut length |
| SearchIterator.SearchIteratorV2.Refill | pymilvus/client/search_iterator.py:131-144 | the refill loop ends with a full cache or an exhausted server |
| SearchIterator.SearchIteratorV2.NextFiltered | pymilvus/client/search_iterator.py:124-153 | page k is elements (k-1)B to min(kB, L, N) of the filtered stream, and fewer than B hits stay cached while the limit lasts |
| SearchIterator.SearchIteratorV2.NextPlain | pymilvus/client/search_iterator.py:121-123 | without a filter, over any server, the pages are its batches, cut at the limit |
| SearchIterator.SearchIteratorV2.Next | pymilvus/client/search_iterator.py:117-153 | None when the limit is used up, else the next page; the invariant of the whole run is kept |
| SearchIterator.SearchIteratorV2.LimitRespected | pymilvus/client/search_iterator.py:186-198 | the total returned never exceeds the limit although the counter may go below zero; without a filter, over any server |
| SearchIterator.Session.ParamsFixed | pymilvus/client/search_iterator.py:101-114 | once set, the token and a positive guarantee timestamp never change, and the batch sizes never do |
| SearchIterator.Session.CarriesLastBound | pymilvus/client/search_iterator.py:97-106 | every request carries the bound of the last answered fetch |
| SearchIterator.Session.CarriesFirstToken | pymilvus/client/search_iterator.py:102-107 | and the token of the first answered fetch, unless the caller gave one |
| SearchIterator.Session.CarriesFirstTimestamp | pymilvus/client/search_iterator.py:108-114 | and the first positive timestamp an answered fetch offers, the session's before the client's, unless the caller gave one |
| SearchIterator.Session.RequestIs | pymilvus/client/search_iterator.py:97-114 | the whole request after any fetches; the other parameters are the caller's |
| SearchIterator.Session.OutputAdds | pymilvus/client/search_iterator.py:124-144 | what one fetch adds to the stream: its hits, through the filter if there is one, and nothing for a refused or empty answer |
| SearchIterator.Create | pymilvus/client/search_iterator.py:28-95 | the parameter checks and the probe, which leaves the request parameters as they were |
| SearchIterator.PagesPartition | pymilvus/client/search_iterator.py:150-153 | the pages are consecutive: nothing is lost, duplicated or reordered |
| SearchIterator.AllReturnedIff | pymilvus/client/search_iterator.py:126-130 | everything the limit allows is returned after some number of pages exactly when the batch size is positive or nothing is allowed |
| Buffers.Buffer.AppendRow | pymilvus/bulk_writer/buffer.py:119-135 | a row whose `$meta` is not a dict changes nothing; another adds to each column its own cell, numpy values under dynamic keys made native |
| Buffers.Buffer.LengthsAgree | pymilvus/bulk_writer/buffer.py:138-147 | the check passes exactly when all columns have one length |
| Buffers.Buffer.PersistJsonRows | pymilvus/bulk_writer/buffer.py:230-250 | the rows handed to the JSON encoder, one for each row of the columns, or an exception exactly when some half-precision cell cannot be read as 16-bit words |
| Buffers.RectangularIff | pymilvus/bulk_writer/buffer.py:119-147 | for any rows, the length check passes exactly when every column's key occurs in the same number of them |
| Buffers.DynamicCell | pymilvus/bulk_writer/buffer.py:120-135 | the `$meta` cell has exactly the row's extra keys and those of its `$meta` dict, the later place in the row deciding |
| BulkWriters.CreateBuffer | pymilvus/bulk_writer/buffer.py:66-96 | the columns of a schema, or an error when it has none before the dynamic one |
| BulkWriters.VerifyNormalField | pymilvus/bulk_writer/bulk_writer.py:204-295 | the loop over the fields, rewriting the caller's dict, up to the first refusal |
| BulkWriters.VerifyOne | pymilvus/bulk_writer/bulk_writer.py:207-293 | the eight null and default rules, and the fields the server fills in |
| BulkWriters.VerifyStructField | pymilvus/bulk_writer/bulk_writer.py:343-351 | struct fields must be present and valid |
| BulkWriters.VerifyIff | pymilvus/bulk_writer/bulk_writer.py:204-351 | a row passes exactly when every field's own rule accepts what the caller put there |
| BulkWriters.VerifiedValues | pymilvus/bulk_writer/bulk_writer.py:222-293 | a row that passes has for each field the checked value, the default or None; keys that name no field are untouched |
| BulkWriters.VerifiedIsComplete | pymilvus/bulk_writer/bulk_writer.py:204-351 | a row that passes has a cell for every column |
| BulkWriters.BulkWriter.AppendRow | pymilvus/bulk_writer/bulk_writer.py:92-95 | which rows reach the buffer, what the row dict becomes, and which counters move |
| BulkWriters.BulkWriter.NewBuffer | pymilvus/bulk_writer/bulk_writer.py:86-90 | the old buffer is handed over whole and replaced by an empty one |
| BulkWriters.AlwaysRectangular | pymilvus/bulk_writer/buffer.py:137-147 | after any sequence of rows all columns are as long as there are accepted rows, so the mismatch error is unreachable |
| BulkWriters.FinalValueIs | pymilvus/bulk_writer/bulk_writer.py:204-351 | what verification leaves under any key, computed from the caller's row by the rules |
| BulkWriters.TakenIff | pymilvus/bulk_writer/bulk_writer.py:92-95 | a row reaches the buffer exactly when every field's rule accepts what the caller gave and the resulting `$meta` value is a dict or absent |
| BulkWriters.BadMetaIsTheCallers | pymilvus/bulk_writer/buffer.py:120-122 | without a field named `$meta`, that value is the caller's |
| BulkWriters.CounterIff | pymilvus/bulk_writer/bulk_writer.py:353-363 | the row counter is the number of accepted rows exactly when no row given passes every rule and has a `$meta` value that is not a dict; else it is larger |
| BulkWriters.CountedThenRefused | pymilvus/bulk_writer/buffer.py:120-122 | one row that is counted and refused |
| BulkJson.JsonRowsAreRows | pymilvus/bulk_writer/buffer.py:230-250 | JSON row i has the columns as keys: a half-precision one holds the row's own bytes as words of its type, `$meta` the extra keys and those of the row's `$meta`, any other the row's own value |
| BulkJson.ColumnOrder | pymilvus/bulk_writer/buffer.py:66-96 | the keys of every JSON row in order: the fields the caller gives, the struct fields, `$meta` |
| BulkJson.ColumnTypes | pymilvus/bulk_writer/buffer.py:66-96 | each has the type of its field |
| BulkJson.JsonWrittenIff | pymilvus/bulk_writer/buffer.py:236-248 | the JSON rows can be built exactly when no row that reaches the buffer leaves a half-precision field absent or None without a default made of bytes |
| BulkJson.NullVectorSpoilsJson | pymilvus/bulk_writer/buffer.py:240-246 | one accepted row after which no JSON file can be written |
| BulkEndToEnd.EveryRowOnce | pymilvus/bulk_writer/local_bulk_writer.py:89-145 | under every interleaving with serialised commits the JSON rows of all files in order are the first verified rows, restricted to the schema; the others are in the buffer in flight and the current one |
| LocalBulkWriter.StepInv | pymilvus/bulk_writer/local_bulk_writer.py:89-145 | every step of every thread keeps conservation, the single flush and the buffer references, while commits are serialised |
| LocalBulkWriter.Conservation | pymilvus/bulk_writer/local_bulk_writer.py:89-145 | under every interleaving with serialised commits, flushed batches, the buffer in flight and the current one are the accepted rows in order |
| LocalBulkWriter.AppendOnlyConservation | pymilvus/bulk_writer/local_bulk_writer.py:96-98 | commits made by `append_row` are serialised by its lock, so such runs need no assumption |
| LocalBulkWriter.NoEmptyBatch | pymilvus/bulk_writer/local_bulk_writer.py:122-145 | in every run, serialised or not, only buffers with rows are persisted |
| LocalBulkWriter.SyncCommitFlushes | pymilvus/bulk_writer/local_bulk_writer.py:118-120 | a synchronous commit returns only after every row accepted before it is in a batch |
| LocalBulkWriter.UnserialisedCommitsLoseRows | pymilvus/bulk_writer/local_bulk_writer.py:102-117 | from any state with two callers past the wait loop, the run can go on so that conservation fails |
| LocalBulkWriter.OnePendingIsSafe | pymilvus/bulk_writer/local_bulk_writer.py:100-117 | with at most one caller inside `commit` that has not launched its flush, and no further call, every continuation keeps the invariant |
| LocalBulkWriter.RowsCanBeLostIff | pymilvus/bulk_writer/local_bulk_writer.py:100-117 | from any state of the invariant, the callers now inside `commit` can lose an accepted row exactly when two of them have not launched their flush |
| LocalBulkWriter.RaceIsReachable | pymilvus/bulk_writer/local_bulk_writer.py:96-106 | a direct commit can overlap so with another one, or with the one that `append_row` makes |
| Lru.CacheRegion.Set | pymilvus/client/cache.py:28-31 | the key maps to the value afterwards, with the LRU list's eviction |
| Lru.WithoutFacts | pymilvus/client/cache.py:33-36 | removing a key keeps all the others, once each |
| CacheKeys.MakeKeyInjective | pymilvus/client/cache.py:80-84 | two requests share an entry exactly when they name the same collection, the empty database name being "default" |
| CacheKeys.InDbIff | pymilvus/client/cache.py:72-78 | the keys of a database are exactly those made with its name, or with the other spelling of the default one |
| CollectionTs.CollectionTsCache.Set | pymilvus/client/cache.py:100-107 | the entry is replaced only by a larger timestamp, and is used either way |
| CollectionTs.Survives | pymilvus/client/cache.py:95-107 | an entry outlives any operations that use fewer other keys than the capacity and holds the maximum written |
| CollectionTs.ReadYourWrites | pymilvus/client/ts_utils.py:15-29 | after a write at t, every session timestamp is at least t while fewer other keys than the capacity are used and the key is not invalidated |
| CollectionTs.CapacityIsTight | pymilvus/client/cache.py:19-31 | as many other writes as the capacity always lose the entry |
| CollectionTs.ConstructGuaranteeTs | pymilvus/client/ts_utils.py:57-89 | the guarantee timestamp and level of every kind of request; session and default ones read the cache |
| SchemaCaches.SchemaCache.InvalidateDb | pymilvus/client/cache.py:72-78 | exactly the database's entries go; the others keep their values and order |
| SchemaCaches.NeverStaleIff | pymilvus/client/cache.py:57-84 | after an invalidation, other threads' operations leave no stale entry, whatever the cache, exactly when the last schema they put is the current one |
| SchemaRepair.GrpcHandler.GetSchema | pymilvus/client/async_grpc_handler.py:618-644 | a hit is returned, a miss is described and stored, with other threads acting in between |
| SchemaRepair.GrpcHandler.InsertOnce | pymilvus/client/async_grpc_handler.py:672-730 | the insert's answer; on success its timestamp is recorded, on an error the timestamps are unchanged |
| SchemaRepair.GrpcHandler.InsertRows | pymilvus/decorators.py:92-133 | the two-attempt loop with its invalidation: the body runs at most twice, and twice exactly when the first run mismatched and there is a context; after success with a positive timestamp the entry is the maximum of the old one and it, after an error no timestamp changes |
| SchemaRepair.BodySends | pymilvus/client/async_grpc_handler.py:646-730 | the request carries the schema's update timestamp, or 0 |
| SchemaRepair.RequestAfterInsert | pymilvus/client/async_grpc_handler.py:690-700 | after an insert answered with a timestamp, while its entry is kept, a session or default request has at least that guarantee timestamp |
| SchemaRepair.TouchesOnlyItsKey | pymilvus/client/async_grpc_handler.py:631-648 | no other entry changes; one is evicted, the least recently used, exactly when the collection was not cached, the cache was full and the collection was described |
| SchemaRepair.FreshIff | pymilvus/client/async_grpc_handler.py:635-644 | the lookup after the invalidation is sure to see the server's schema exactly when no other thread's last put meanwhile is another one |
| SchemaRepair.Repair | pymilvus/decorators.py:113-133 | from any stale cache, if the server settles, the second run succeeds and the server's schema is cached |
| SchemaRepair.StalePutDefeatsRepair | pymilvus/client/async_grpc_handler.py:640-644 | a late put of a stale schema decides the second run instead |
| SchemaRepair.RunsBounded | pymilvus/decorators.py:256-331 | with both decorators the body runs at most 2 (max(N, 0) + 1) times |
| SchemaRepair.RunsBoundIsTight | pymilvus/decorators.py:256-331 | that bound is reached for every N |
| SchemaRepair.PersistentMismatch | pymilvus/decorators.py:319-325 | a mismatch that the repair does not cure is not retried: two runs, whatever N |
| Retry.Handler | pymilvus/decorators.py:256-331 | the loop calls up to the first call that stops it and sleeps the back-off sequence in between; which exception it ends with |
| Retry.StopsIff | pymilvus/decorators.py:271-330 | a call is the last one exactly when time or retries are over, it returned, its status is one of seven, or its failure is not a rate limit to be retried |
| Retry.CallsBounded | pymilvus/decorators.py:276-282 | at most max(N, 0) + 1 calls, or max(0, ceiling(T / initial)) + 1 with a timeout T |
| Retry.CallsExact | pymilvus/decorators.py:290-329 | without a timeout, exactly max(N, 0) + 1 calls unless an earlier one is not retryable |
| Retry.ElapsedAtLeast | pymilvus/decorators.py:311-312 | after k sleeps at least k initial back-offs have passed |
| Retry.BackOffClosedFormIff | pymilvus/decorators.py:311-312 | sleep k is min(initial multiplier^k, max) for all k exactly when the initial back-off is not above the maximum |
| GlobalStubs.PrimaryIsFirst | pymilvus/client/global_stub.py:44-63 | the primary is the first writable cluster, and missing exactly when none is writable |
| GlobalStubs.Primary | pymilvus/client/global_stub.py:57-63 | the search loop finds it |
| GlobalStubs.GlobalStub.OnTopologyChange | pymilvus/client/global_stub.py:272-296 | when the topology, the handler and the old handler change, and when it raises |
| GlobalStubs.TopologyRefresher.TryRefresh | pymilvus/client/global_stub.py:198-219 | a newer topology is installed and passed on, anything else changes nothing |
| GlobalStubs.RacesAreSafe | pymilvus/client/global_stub.py:198-219 | under every interleaving the installed version is the maximum of the initial one and those committed, callbacks see growing versions, and the stub has followed exactly when the installed topology has a primary |
| GlobalStubs.VersionNeverDecreases | pymilvus/client/global_stub.py:203-206 | the installed version of a later state is never smaller |
| GlobalStubs.FetchedIsCommitted | pymilvus/client/global_stub.py:198-206 | every fetched topology is committed once or still pending |
| GlobalStubs.FailoverIff | pymilvus/client/global_stub.py:272-296 | between all callbacks of a run one handler is open and connected to the primary, exactly when no move of the primary met a creation or close fault |
| GlobalStubs.FailedCreationSticks | pymilvus/client/global_stub.py:278-283 | a handler that could not be created is not retried while the primary stays |
| GlobalStubs.RacesFailOver | pymilvus/client/global_stub.py:198-296 | without such faults, racing refreshes leave one open handler, connected to the newest topology's primary |

## Left out

- gRPC channels, REST calls, TLS, file and object storage, Parquet, CSV and NPY files, logging: input and output.
- The RPC wrappers of the handlers other than the insert and schema protocol: one branch each. `describe_collection`, with its own retries, is one answer of the environment; `upsert_rows` follows the insert's protocol.
- The scipy branches of the sparse encoder; `dim` of sparse columns is modelled as computed, and no bound on it is stated, because the code takes the last index given and not the largest.
- Numpy conversion and rounding: floats are opaque bit patterns, half-precision values are bytes, and leaf conversion keeps an opaque payload.
- Row-wise packing of scalar, float and sparse fields, and decoding of scalar columns.
- Nullable scalars: the insert form is compacted and the decoder expects the server's dense form.
- Vectors of another kind than their column (`AllTyped`): the Python code fails on them in ways that depend on numpy and protobuf.
- `vector_array.element_type` is not set by the client; the struct model takes the server's value for it. `prepare.py` checks that structs have the same keys, which is a condition of the round trip here.
- The type validators of the bulk writer are any functions of the field and the value; of the half-precision ones it is used that what they accept becomes the bytes of 16-bit words (`pymilvus/bulk_writer/validators.py`, lines 74-108). Sizes in bytes are not counted.
- Schemas with two fields of one name, which the field-by-field results exclude (`DistinctNames`).
- What the JSON encoder makes of the rows it is handed, and its refusals.
- `buffer_size` and `buffer_row_count` while a flush is in flight; the model of the threads proves what happens to rows instead.
- Aliasing of row values: a buffer cell is a value, so later changes by the caller to a list inside a row are not seen.
- The file types other than JSON.
- What becomes of the rows of a failed `persist`: the code drops them, and the thread model keeps them as a batch marked as not persisted.
- `GlobalStub.close`, and the timing of its refresh thread.
- The asynchronous retry handler, which has the same loop, and the message texts of exceptions.
- Memory-model effects below lock granularity: unprotected reads are single atomic steps.
