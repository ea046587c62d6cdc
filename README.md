# Sealed search, time-tick sync and index-build bookkeeping, in Dafny

This project models three pieces of a vector database's core and proves
properties of them.

- **Query** (`search_on_sealed.dfy`) models search over one sealed segment.
  - `AssembleNegBitset` merges the per-chunk inclusion bitsets into one
    exclusion mask. It sums the bit lengths, allocates
    `upper_align(upper_div(N, 8), 64)` zero bytes and copies the chunks in.
    A single chunk is copied with its partial last byte. With several
    chunks, each must be a whole number of bytes. Finally every byte is
    complemented in place.
  - `SearchOnSealed` checks three things in order: the field is ready, the
    metric matches, and the index adapter accepts the effective parameters.
    It then queries the index, rounds the distances unless the rounding
    precision is the sentinel -1, and fills the caller's result buffer.
- **RootCoord** (`time_tick_sync.dfy`) models the root coordinator's
  time-tick synchroniser.
  - It keeps the set of in-flight DDL timestamps with a cached minimum.
  - It keeps a table with the latest tick reported by each registered proxy.
  - Reports are validated, and a report may not pass an in-flight DDL.
  - Once every registered proxy has reported, the table is emitted as one
    snapshot and reset.
  - It also models the `minTimeTick` fold and the per-channel minimum taken
    over a snapshot.
- **IndexNode** (`index_build_task.dfy`) models the self-contained logic of
  an index-build task.
  - It flattens the request's type and index parameters into maps. Repeated
    keys are rejected, and the special `"params"` key is expanded.
  - It decides how the stored `IndexMeta` record changes before and after a
    build.
  - It checks that loaded data holds exactly one field.
  - It records the serialized size and the save path of each blob.

`wrappers.dfy` holds `Option` and `Result`. `sets.dfy` holds a witness lemma
for picking an element of a non-empty set, which models Go's unordered
iteration over a map.

Collaborators the model cannot see are parameters or function values:

- the vector index and its adapter, metric-name resolver and float rounding
  (the `Knowhere` datatype);
- the `"params"` parser;
- the results of loading, deserializing and saving.

Two facts about the mask assembly that are easy to miss:

- The code requires every chunk of a multi-chunk bitset to be a whole number
  of bytes, the last one included (`CopyChunks`, `AssembleNegBitset`).
- The code zero-initialises the buffer before complementing it, so the
  padding bytes of the mask are exactly 0xFF (`NegAssembledPadding`).

## Model

The functions that model source code without promising anything of their
own are covered by the rows of the lemmas about them:

- `RootCoord.NewChanTsMsg` and `RootCoord.GetTimetick` (newChanTsMsg and
  getTimetick, timeticksync.go:69-86): `GetTimetickUnlisted` and
  `GetTimetickListed`;
- `RootCoord.MinTimeTick` (minTimeTick, timeticksync.go:436-448): the three
  `MinTimeTick*` lemmas;
- `IndexNode.FlattenParams` (the loops of executePrepareParams,
  task.go:249-291): the flattening lemmas from `PlainPairsVerbatim` to
  `ExpansionOrderMatters`;
- `IndexNode.DecideIndexMeta` (checkIndexMeta, task.go:171-205):
  `NoWriteOverNewerOrFinished`, `DeletionWins`, `PreCheckWritesNoOutcome`
  and `PostCheckOutcome`;
- `IndexNode.SavePath` (getSavePathByKey, task.go:447-450): the `SavePath*`
  lemmas.

| member | source | states |
|---|---|---|
| Query.SumBits | internal/core/src/query/SearchOnSealed.cpp:28-32 | the loop's result is N, the sum of the chunks' bit lengths |
| Query.ByteCount | internal/core/src/query/SearchOnSealed.cpp:44-49 | the bytes copied by the multi-chunk path, sum of size/8, never exceed N/8 |
| Query.Memcpy | internal/core/src/query/SearchOnSealed.cpp:40 | memcpy writes `count` source bytes at `offset` and leaves every other byte of the buffer as it was |
| Query.ConcatBytesAt | internal/core/src/query/SearchOnSealed.cpp:46-49 | byte j of chunk k sits at offset sum_{i<k} size_i/8 + j of the concatenation |
| Query.AppendChunk | internal/core/src/query/SearchOnSealed.cpp:44-49 | one iteration appends chunk k's size/8 bytes after the earlier chunks' bytes; the rest of the buffer stays zero; the running offset grows by size/8 and stays inside the buffer |
| Query.CopyChunks | internal/core/src/query/SearchOnSealed.cpp:41-51 | the multi-chunk copy succeeds iff every chunk is a whole number of bytes, and then the buffer is the chunks' bytes in order followed by zeros |
| Query.ComplementInPlace | internal/core/src/query/SearchOnSealed.cpp:53-56 | every byte of the buffer is replaced by its complement |
| Query.AssembleNegBitset | internal/core/src/query/SearchOnSealed.cpp:26-58 | fails with BitsetContractError exactly when there are several chunks and one is not a multiple of 8 bits; otherwise returns the complemented, zero-padded assembly |
| Query.NegAssembledLength | internal/core/src/query/SearchOnSealed.cpp:28-34 | the mask length is upper_align(upper_div(N, 8), 64): a multiple of 64, at least N bits, and less than ceil(N/8) + 64 bytes |
| Query.NegAssembledSingleChunk | internal/core/src/query/SearchOnSealed.cpp:36-40 | with one chunk, mask byte j for j < ceil(size/8) is the complement of chunk byte j, partial last byte included, with no multiple-of-8 check |
| Query.NegAssembledMultiChunk | internal/core/src/query/SearchOnSealed.cpp:42-56 | with several chunks, byte j of chunk k appears complemented at offset sum_{i<k} size_i/8 + j |
| Query.NegAssembledPadding | internal/core/src/query/SearchOnSealed.cpp:34-56 | every byte past the copied region is 0xFF |
| Query.NegAssembledRoundTrip | internal/core/src/query/SearchOnSealed.cpp:41-56 | complementing the mask again gives the concatenation of the chunks' bytes followed by zero padding |
| Query.TwoChunkExample | internal/core/src/query/SearchOnSealed.cpp:26-58 | chunks of 16 and 8 bits holding 0xF0 0x0F and 0xAA give the mask 0x0F 0xF0 0x55 followed by 61 bytes of 0xFF |
| Query.SearchOnSealed | internal/core/src/query/SearchOnSealed.cpp:60-127 | a failed check returns its error and leaves the result untouched; otherwise the result holds the first nq*topk ids and distances, rounded unless round_decimal is -1, plus nq and topk |
| Query.ReadinessCheckedFirst | internal/core/src/query/SearchOnSealed.cpp:81 | a field that is not ready fails with ReadinessError whatever the metric and parameters |
| Query.MetricCheckedSecond | internal/core/src/query/SearchOnSealed.cpp:84-85 | a ready field whose index metric differs from the request fails with MetricMismatchError whatever the adapter says |
| Query.SearchGatePasses | internal/core/src/query/SearchOnSealed.cpp:81-99 | the search reaches the index iff the field is ready, the metric matches and the adapter accepts the effective parameters; the index used is the field's |
| Query.EffectiveConfOverlay | internal/core/src/query/SearchOnSealed.cpp:91-93 | the effective parameters force top-K and the index's metric name and keep every other caller key and value |
| Query.RoundDistancesSentinel | internal/core/src/query/SearchOnSealed.cpp:111-117 | round_decimal -1 leaves distances unchanged; any other value rounds each distance; the length is kept |
| RootCoord.ZipChannels | internal/rootcoord/timeticksync.go:75-77 | the recorded channel map has exactly the reported channel names as keys |
| RootCoord.ZipChannelsLast | internal/rootcoord/timeticksync.go:75-77 | a channel named several times keeps the timestamp of its last occurrence |
| RootCoord.GetTimetickUnlisted | internal/rootcoord/timeticksync.go:69-86 | a recorded message answers the default timestamp for a channel it does not list |
| RootCoord.GetTimetickListed | internal/rootcoord/timeticksync.go:69-86 | a recorded message answers a listed channel with the timestamp at that channel's last position |
| RootCoord.MinTimeTickIsMin | internal/rootcoord/timeticksync.go:436-448 | on non-zero timestamps the fold returns one of them that is at most every other |
| RootCoord.MinTimeTickAfterLastZero | internal/rootcoord/timeticksync.go:436-448 | a zero restarts the fold: the result equals the fold over the timestamps after the last zero |
| RootCoord.MinTimeTickZeroInMiddle | internal/rootcoord/timeticksync.go:436-448 | the fold of [5, 0, 7] is 7 |
| RootCoord.ChannelMin | internal/rootcoord/timeticksync.go:319-328 | the per-channel tick is at most the local tick and every source's tick for the channel, and is one of them |
| RootCoord.FlushKeepsSources | internal/rootcoord/timeticksync.go:131-165 | a flush keeps the registered sources and emits at most one snapshot; it emits exactly when every source has reported, and the snapshot holds each source's tick |
| RootCoord.FlushStartsNewRound | internal/rootcoord/timeticksync.go:131-165 | after a flush, some registered source has not yet reported, so no snapshot is emitted twice for the same reports |
| RootCoord.UpdateVerdictRejects | internal/rootcoord/timeticksync.go:217-227 | an empty report is ignored; mismatched name and timestamp counts are rejected as invalid; a report from an unregistered source is rejected as unrecognised |
| RootCoord.AcceptedReport | internal/rootcoord/timeticksync.go:217-253 | an accepted report is well formed, comes from a registered source, is at most the least in-flight DDL timestamp, and is recorded with its channels, default and the report count raised by one |
| RootCoord.SelfTicksAdvance | internal/rootcoord/timeticksync.go:239-247 | the coordinator's own ticks are accepted only if they strictly increase within a round |
| RootCoord.TimetickSync.constructor | internal/rootcoord/timeticksync.go:112-126 | a new synchroniser has no proxies, has sent nothing, has no in-flight DDL and has the MaxUint64 minimum |
| RootCoord.TimetickSync.SendToChannel | internal/rootcoord/timeticksync.go:131-165 | once every registered proxy has reported, the table is sent as a snapshot and every entry is reset; otherwise nothing changes |
| RootCoord.TimetickSync.AddDdlTimeTick | internal/rootcoord/timeticksync.go:169-180 | the timestamp joins the in-flight set and the cached minimum stays the set's least element |
| RootCoord.TimetickSync.RemoveDdlTimeTick | internal/rootcoord/timeticksync.go:184-204 | the timestamp leaves the set and the minimum is recomputed: MaxUint64 when the set is empty, otherwise the least remaining timestamp |
| RootCoord.TimetickSync.GetDdlMinTimeTick | internal/rootcoord/timeticksync.go:206-211 | the answer is the least in-flight DDL timestamp, or MaxUint64 when none is in flight |
| RootCoord.TimetickSync.UpdateTimeTick | internal/rootcoord/timeticksync.go:214-257 | rejected reports return their error and ignored ones nothing, both changing no state; an accepted report is recorded for its source and the table is flushed if the round is complete |
| RootCoord.TimetickSync.AddProxy | internal/rootcoord/timeticksync.go:259-264 | the proxy is registered with no report |
| RootCoord.TimetickSync.DelProxy | internal/rootcoord/timeticksync.go:266-274 | a registered proxy is removed and the rest of the table may complete the round; an unknown proxy changes nothing |
| RootCoord.TimetickSync.ClearProxy | internal/rootcoord/timeticksync.go:276-282 | every given proxy is registered with no report, and the other entries are kept |
| RootCoord.TimetickSync.GetProxyNum | internal/rootcoord/timeticksync.go:379-383 | the answer is the number of registered proxies |
| IndexNode.PlainPairsVerbatim | internal/indexnode/task.go:264-266 | without a "params" key, a successful flattening maps exactly the given keys, each to its own value |
| IndexNode.PlainPairsSucceedIffDistinct | internal/indexnode/task.go:250-266 | without a "params" key, flattening succeeds iff no key is repeated |
| IndexNode.FailurePersists | internal/indexnode/task.go:250-266 | once the loop has returned an error, the remaining pairs do not change it |
| IndexNode.KeysOnlyGrow | internal/indexnode/task.go:256-266 | a key in the map at some point stays in it until the end of a successful loop |
| IndexNode.PresentKeyFails | internal/indexnode/task.go:252-255 | a key meeting a map that already holds it fails with the duplicate error, including a key produced by an earlier "params" expansion |
| IndexNode.DuplicatePlainKeyFails | internal/indexnode/task.go:250-266 | a plain key given twice makes flattening fail, with the duplicate error unless an earlier error stopped it |
| IndexNode.ExpansionOverwrites | internal/indexnode/task.go:252-263 | after any successful prefix, a "params" pair is a duplicate if the map already holds "params"; otherwise a parse error is returned as is, and a parsed map p turns the map m into m + p, overwriting earlier keys without error |
| IndexNode.ExpansionOrderMatters | internal/indexnode/task.go:252-266 | an example: with "dim" before the expansion, the parsed "dim" silently wins; with "dim" after it, the loop fails with the duplicate error |
| IndexNode.MergeParams | internal/indexnode/task.go:260-262 | writing the parsed pairs over the map gives the map overridden by the parsed pairs |
| IndexNode.BuildParams | internal/indexnode/task.go:249-268 | the loop returns the flattened map of the pairs, or the error it stops at |
| IndexNode.IndexBuildTask.ExecutePrepareParams | internal/indexnode/task.go:248-291 | the type-params error wins over the index-params error; the task's maps are replaced only when both lists flatten without error |
| IndexNode.NoWriteOverNewerOrFinished | internal/indexnode/task.go:171-176 | the record is left alone iff it is newer than the request or already finished; any write keeps its build id, version and deletion mark |
| IndexNode.DeletionWins | internal/indexnode/task.go:177-189 | a live record marked deleted is written back as Finished with nothing else changed, whether pre- or post-check |
| IndexNode.PreCheckWritesNoOutcome | internal/indexnode/task.go:190-192 | a pre-check never writes a build outcome |
| IndexNode.PostCheckOutcome | internal/indexnode/task.go:193-205 | a post-check writes the save paths and size; the state is Failed with the error text if the task failed, else Unissued on an internal error, else Finished; no other field changes |
| IndexNode.IndexBuildTask.CheckIndexMeta | internal/indexnode/task.go:171-205 | updating a copy of the loaded record step by step reaches the decision stated by the lemmas above |
| IndexNode.NatToDecimal | internal/indexnode/task.go:447-450 | the decimal form is a non-empty string of digits |
| IndexNode.ItoaRoundTrip | internal/indexnode/task.go:447-450 | every number printed by Itoa is read back unchanged |
| IndexNode.SplitJoinRoundTrip | internal/indexnode/task.go:447-450 | splitting a joined path on '/' gives back its non-empty, slash-free segments |
| IndexNode.SplitConcat | internal/indexnode/task.go:447-450 | the segments of a + "/" + b are the segments of a followed by those of b |
| IndexNode.SavePathLayout | internal/indexnode/task.go:447-450 | for any root, a save path is root/buildID/version/partitionID/segmentID/key in decimal, with an empty root or key dropped |
| IndexNode.SavePathSplit | internal/indexnode/task.go:447-450 | the segments of a save path are the root's segments, the four ids in decimal, then the key's segments |
| IndexNode.SavePathSegments | internal/indexnode/task.go:447-450 | for any root and key, the build id, version, partition id and segment id read back from the four segments after the root's |
| IndexNode.SavePathIdsFromEnd | internal/indexnode/task.go:447-450 | for any root and a slash-free key, the key is the last segment and the four ids read back from the four segments before it |
| IndexNode.BlobWithinTotal | internal/indexnode/task.go:442-445 | every blob's bytes are counted in the serialized size |
| IndexNode.FirstFailure | internal/indexnode/task.go:485-490 | there is a save failure iff some blob was not saved, and the failure reported is one of the blobs' errors |
| IndexNode.IndexBuildTask.SumValueBytes | internal/indexnode/task.go:442-445 | the serialized size is the sum of the blobs' value lengths |
| IndexNode.IndexBuildTask.SavedPaths | internal/indexnode/task.go:452-482 | there is one path per blob: the blob's save path if it was saved, empty otherwise |
| IndexNode.IndexBuildTask.ExecuteSave | internal/indexnode/task.go:440-491 | the step always returns no error; it records the size and paths, and a failed save becomes the internal error |
| IndexNode.IndexBuildTask.ExecuteStepLoad | internal/indexnode/task.go:327-369 | a load failure becomes the internal error; deserialized data must have exactly one field, which is returned with the segment ids recorded |

## Left out

- Float rounding. `round(x * 10^d) / 10^d` on `float` is an opaque function (`Knowhere.roundDistance`), so rounding idempotence is not stated.
- The vector index, its adapter's `CheckSearch`, `GenDataset` and `MetricTypeToName`. These are foreign library calls and are modelled as function values.
- Readiness is modelled as the field having an entry in the sealed indexing record. The record's own bookkeeping is not part of this model.
- Query.SearchOnSealed: the index's raw output arrays are read through pointers without bounds. The model requires the index to return at least nq*topk entries (`AnswersInFull`). The distances are rounded in a fresh array rather than in the index's own buffer.
- Query.AssembleNegBitset: `acc_byte_count` is a C++ `int` and `N` an `int64_t`. Their overflow on bitsets larger than 2^31 bytes is not modelled.
- Query.SearchOnSealed: the field offset is assumed to name a field of the schema (`requires 0 <= info.fieldOffset < |schema|`). The source indexes the schema with it before any check, and the failure or undefined behaviour of an out-of-range lookup is not modelled.
- Query.SearchOnSealed: `num_queries` and `topk` are signed in the source and natural numbers here. Negative counts are not modelled.
- The debug output of SearchOnSealed.cpp is left out, since it is instrumentation only.
- Mutexes, goroutines, the `WaitGroup`, the context `select`, the long-term checker and the `startWatch` loop of timeticksync.go are left out. The model is sequential.
- RootCoord.TimetickSync.SendToChannel: the buffered Go channel is a sequence of sent snapshots. Blocking when the buffer is full is not modelled. The idle-proxy warning (`maxCnt`) is logging only.
- `sendTimeTickToChannel` and the dml/delta channel delegation of timeticksync.go are left out. They forward to message streams and metrics.
- Timestamps are modelled as 0..MaxUint64. The report count `cnt` is an unbounded integer, so int64 overflow is not modelled.
- The etcd loads and compare-and-swap writes, `proto` marshalling, `retry.Do`, `ProcessFuncParallel`, MinIO loads and saves, and the CIndex build, serialize and delete calls are left out. They are I/O or native calls. Their outcomes are parameters of the modelled steps.
- The parser of `"params"` values is a function-valued parameter, since it is not shown.
- IndexNode.IndexBuildTask.ExecuteSave: blobs are saved in parallel, and the first error to arrive is kept. The model reports the first failure in blob order.
- IndexNode.SavePath: `path.Join` also cleans the path: it collapses repeated slashes, drops a trailing slash and resolves `.` and `..`. The model only drops empty elements and joins the rest with '/'. A root such as `files/index_files/` therefore keeps an empty segment in the model. The layout lemmas hold for any root, but `SplitJoinRoundTrip` needs slash-free, non-empty segments.
- IndexNode.IndexBuildTask.ExecuteStepLoad: only the checks around the loads are modelled. The binlog decoding of `DeserializeAll` is an input.
- `executeStepBuild`, `Execute`, `WaitToFinish` and the rest of the task lifecycle in task.go are left out. They orchestrate I/O and native calls.
- internal/querynode/task.go is not part of this model. Its task bodies orchestrate replicas, flow graphs, message streams and the segment loader, with no self-contained logic to verify.
- The Python chaos and scale tests are not part of this model. They are cluster tests with wall-clock timing.
