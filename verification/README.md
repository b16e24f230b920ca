# Verified model of the node registry, the tiny_frame codec and the remote_write proxy

`dafny verify dfyconfig.toml` checks everything.

**The dfinder registry** (`Registry*.dfy`). Nodes register by ip, a probe loop asks each stored node
whether it works, queries see only healthy nodes, and a node that has been silent for `offline_ttl`
is removed. `Registry` is the state machine: one event per lock region of the server (register, the
snapshot of a cycle, one health write per probed node, one sweep), plus the clock, the reading of
`now` between two lock regions, and restart. A run is any interleaving of these by clients and any
number of probe loops. The theorems quantify over all runs. `RegistryServer` is the server in its own
form, a class whose methods update the two maps in place; each method is proved to be the events of
the state machine, with arbitrary steps of others between the lock regions of a cycle.

- `d` is the longest time from a cycle's stamp to its last health write. A positive probe writes that
  old stamp, so `last_ok` can move backwards; that is where the `- d` in the lease bound comes from.
- A registration that lands between a mark and its sweep is swept all the same (`RegisteredYetSwept`
  is such a run, from an empty registry with one loop). The lease bound
  therefore asks that no mark is pending, and `LeaseIffNoPendingMark` shows that this is exactly the
  condition, for registrations and for positive probes. `LeaseBoundIsTight` and `RemovalBoundIsTight`
  show that the two bounds cannot be improved.
- Store and health map hold the same addresses at every point of every run exactly if there is at most
  one probe loop (`AgreementIffOneLoop`). With two, even a node that has fallen silent can leave a health
  entry that nothing but a registration or a restart removes (`HealthFollowsIffOneLoop`,
  `SilentNodeStranded`, `StrandedForGood`); no query shows it.
- `Inv`, which several theorems ask of their starting state, holds of every reachable state (`BootInv`
  and `RunKeepsInv`).

**The tiny_frame codec** (`TinyFrame*.dfy`). Bit packing, byte order, lengths, error branches and
stream consumption are concrete. Compression and the AEAD are parameters of an implementation
(`Lib`): `Unpacks(w, r)` says that reader `r` decompresses what writer `w` compressed, `Interops(w, r)`
that it also opens what `w` sealed, `SealsWithTag` that sealing adds 16 bytes and works below the
limit of section 2.8 of RFC 8439. The bound header asks for an AEAD that opens only what was sealed;
`IdealOpenerReads` shows that every working implementation has such a receiver. `TinyFrameIo` has the
Rust and the Go writer and readers in the form of their sources; all are proved to compute the same
two functions `Build` and `Read`, so every theorem about those holds for both languages and across
them. `TinyFrameReference` tells writer and reader once more by the numbers, byte by byte and error by
error. A missing key, a panic or an error in the sources, is the error `MissingKey`; the nonce is a
parameter.

**Metric flattening** (`Metrics*.dfy`). Both encoders are loops over families, proved to compute
`Flatten(Rust, ..)` and `GoFlatten`, which is `Flatten(Go, ..)` or an error (`GoFlattens`). The theorems
about the decoder, about distinct series and about labels hold of `Flatten` for either encoder and are
stated once more of `GoFlatten`; the extent of the agreement of the two encoders is exact.
`MetricsEmission` writes out what each encoder emits for each type, and where. A double is
its bit pattern; printing it and converting a count are parameters, as is the clock.

**Transaction ids and edge counters** (`TxIds.dfy`, `ProxyEdges.dfy`). The compare-and-swap allocator
of the Go client with any number of goroutines, the wrapping counter of the Rust clients, and the
proxy's connections, which forward, then count, then reply.

## Where the code says otherwise

- `promproxy/encode.go` emits untyped families, `src/prom_proxy/encode.rs` skips them, although the
  documentation of the Rust function lists them as supported. The model follows the code.
- Rust takes a timestamp of zero for a missing one, Go does not. `EncodersAgreeExactly` states
  exactly when the results are equal all the same.
- Go prints an infinite bucket bound as `+Inf`, which doubles the bucket both encoders add
  (`InfiniteBoundCollides`); Rust prints `inf`. `SeriesAreDistinct` states exactly when all series
  are distinct.
- Derived names can collide with family names; then values can be lost (`NameCollisionLosesData`).
  `LosslessIffNotMimicked` says for which names and types: exactly if there is a summary `a`, a
  supported counter, gauge or untyped family `a_sum`, and after that one such family `a_count`.
- The documentation of `EdgeStore::incr` says that it only grows; a delta of 2^63 or more is cast to a
  negative one and shrinks the field. `FlushesNeverDecrease` states exactly when totals never go down.

## Model

| member | source | states |
|---|---|---|
| `Registry.RunKeepsInv` | src/dfinder/server.rs:195-296 | after any run of register, probe, sweep and restart steps, with any number of loops: stored keys are a subset of health keys, no recorded success lies in the future, no loop will probe a node it has marked |
| `Registry.ClockMonotone` | src/dfinder/server.rs:203 | time never runs backwards between two points of a run |
| `Registry.BootInv` | src/dfinder/server.rs:89-117 | the freshly built server satisfies the invariant, whatever rows it finds |
| `Registry.RunKeepsSoleInv` | src/dfinder/server.rs:195-234 | with at most one loop: store and health keys stay equal, and the loop's snapshot and marks only name stored nodes |
| `Registry.CompleteCycle` | src/dfinder/server.rs:225-231 | whatever a loop has marked can be gone at the very same clock reading, a fresh registration notwithstanding, without any step of another loop |
| `RegistryAgreement.IndexAgreement` | src/dfinder/server.rs:210-213 | with at most one loop the key sets agree after every lock region, store errors included, so the `or_insert` default is never used |
| `RegistryAgreement.TwoLoopsLeaveAnOrphan` | src/dfinder/server.rs:209-231 | from any booted state, any two loops among any number have a timely run after which a health entry has no row |
| `RegistryAgreement.AgreementIffOneLoop` | src/dfinder/server.rs:195-234 | the key sets agree at every point of every run if and only if there is at most one loop |
| `RegistryHistory.StateRefinesHistory` | src/dfinder/server.rs:89-105 | the maps say exactly what the history of registrations, sweeps, verdicts and restarts says |
| `RegistryHistory.QueryRefinesHistory` | src/dfinder/server.rs:308-315 | a query returns, each once, exactly the nodes whose latest row is unswept, that carry every requested label, and whose latest verdict since the last restart is positive |
| `RegistryHistory.AnswerMembers` | src/dfinder/store.rs:122-128 | a node is in an answer if and only if it is in the listing, has every requested label and is recorded healthy |
| `RegistryHistory.AnswerDistinct` | src/dfinder/store.rs:97-119 | an answer never lists an address twice |
| `RegistryHistory.ListingAnswers` | src/dfinder/server.rs:308-315 | whatever order the rows are listed in, filtering them yields exactly the stored rows that pass both filters, each address once |
| `RegistryHistory.OrphansStayHidden` | src/dfinder/server.rs:308-315 | with several loops, a health entry without a row is never visible in a query |
| `RegistryLease.StepKeepsLease` | src/dfinder/server.rs:206-231 | no step ends an intact lease before `r + ttl - d` |
| `RegistryLease.LeaseBound` | src/dfinder/server.rs:203-231 | under every interleaving a registration or positive probe at `r` with no mark pending, or a restart at `r`, keeps the node stored until at least `r + ttl - d` |
| `RegistryLease.LeaseIffNoPendingMark` | src/dfinder/server.rs:225-231 | the lease is guaranteed for exactly those registrations and positive probes that find no pending mark, and for every stored node at a restart |
| `RegistryLease.LeaseBoundIsTight` | src/dfinder/server.rs:203-231 | for all `ttl`, `d <= ttl` and `r >= d`, a run in which an unmarked registration at `r` is gone at exactly `r + ttl - d` |
| `RegistryLease.RegisteredYetSwept` | src/dfinder/server.rs:225-231 | for all `ttl` and `d`, from an empty registry with one loop, a timely run in which a node is marked, registers, and is gone at the same clock reading |
| `RegistryLease.SuccessBound` | src/dfinder/server.rs:214-217 | the recorded success trails no registration or positive probe of the run by more than `d` |
| `RegistryLease.MarkHasCause` | src/dfinder/server.rs:218-223 | every mark goes back to a negative answer in the same cycle, given when the last success was at least `ttl` old, and has stood since |
| `RegistryLease.SweepSoundness` | src/dfinder/server.rs:214-231 | any number of loops: what a sweep removes answered its probe negatively in that cycle, and all earlier successes lie at or before `now - ttl + d` |
| `RegistryLease.SweepSoundnessOneLoop` | src/dfinder/server.rs:214-231 | one loop: if the node did not register again after that answer, all its successes lie at or before `now - ttl + d` |
| `RegistryLease.NoSecondProbe` | src/dfinder/server.rs:206-209 | a cycle never probes again what it has marked |
| `RegistryRemoval.StepKeepsPursuit` | src/dfinder/server.rs:195-234 | while a silent node is stored, no step of any loop breaks the count of cycles that bounds its stay |
| `RegistryRemoval.BoundedRemoval` | src/dfinder/server.rs:195-234 | a silent node is gone from the store after `ceil(ttl/gap) + 1` complete error-free cycles of any one loop, and with a single loop from health too |
| `RegistryRemoval.StaysGone` | src/dfinder/server.rs:282-292 | only a registration brings a removed node back |
| `RegistryRemoval.RemovalBoundIsTight` | src/dfinder/server.rs:195-234 | for all `ttl` and `gap` a silent node can outlive `ceil(ttl/gap)` complete cycles |
| `RegistryOrphans.HealthFollowsIffOneLoop` | src/dfinder/server.rs:209-231 | for a stored node that falls silent, its health entry is gone after the cycles that remove its row, in every run, if and only if there is one loop |
| `RegistryOrphans.SilentNodeStranded` | src/dfinder/server.rs:209-213 | from any booted state with two loops and any stored node, a run in which that node is silent and ends with a health entry, no row, and no loop that knows it |
| `RegistryOrphans.StrandedForGood` | src/dfinder/server.rs:225-231 | such an entry stays until the node registers or the server restarts |
| `RegistryOrphans.RunKeepsNotBefore` | src/dfinder/server.rs:95-105 | no recorded success of a node booted at `c`, and no stamp, is ever older than `c` |
| `RegistryServer.Server.constructor` | src/dfinder/server.rs:89-117 | the built server is `Booted`: every stored row unhealthy, its lease starting now, its loop idle |
| `RegistryServer.Server.ListAll` | src/dfinder/store.rs:97-119 | lists every row exactly once |
| `RegistryServer.Server.Carries` | src/dfinder/store.rs:126 | true exactly if every requested label is among the node's |
| `RegistryServer.Server.Query` | src/dfinder/server.rs:308-315 | yields exactly the stored rows that carry every requested label and are recorded healthy, each address once |
| `RegistryServer.Server.HandleFrame` | src/dfinder/server.rs:250-320 | exactly which reply each request gets, or that it gets none (undecodable, refused by the store, or too long for a frame), always with its transaction id, and that the registry changes by nothing but an accepted registration |
| `RegistryServer.SentIsFramed` | src/dfinder/server.rs:317-318 | a reply is sent exactly if the codec can frame it, and the peer reads its type, transaction id and body |
| `RegistryServer.Server.Snapshot` | src/dfinder/server.rs:198-201 | is the Begin event: the whole table, read at once |
| `RegistryServer.Server.StampCycle` | src/dfinder/server.rs:203 | is the Stamp event |
| `RegistryServer.Server.WriteAnswer` | src/dfinder/server.rs:209-223 | is the Probe event: health and mark of one node, nothing else |
| `RegistryServer.Server.Sweep` | src/dfinder/server.rs:225-231 | removes marked nodes from both maps up to the first store error and no further |
| `RegistryServer.Server.RunProbeCycle` | src/dfinder/server.rs:195-234 | with arbitrary steps of others in between, a cycle is a run in which the loop takes one snapshot, one stamp, one health write per node with the answer of its probe, and one sweep, complete unless the store failed; it does nothing at all if the rows cannot be listed |
| `TinyFrame.BitOperations` | src/tiny_frame.rs:96 | the arithmetic used for header bytes is the shifting and masking of the source, on 8-bit vectors |
| `TinyFrame.HeaderRoundTrip` | src/tiny_frame.rs:73-97 | packing accepts exactly types below 32 with flags 0, 1, 2, 4, 5, 6, and loses neither type nor flags |
| `TinyFrame.HeaderCanonical` | src/tiny_frame.rs:227-231 | every header byte with a known compress id is what packing its own fields gives |
| `TinyFrame.BeRoundTrip` | src/tiny_frame.rs:221-222 | a number that fits in `k` bytes comes back from them |
| `TinyFrame.BeCanonical` | src/tiny_frame.rs:294-300 | every byte string of a given length is the encoding of exactly one number that fits |
| `TinyFrameCodec.AadInjective` | src/tiny_frame.rs:141-146 | the nine bytes of associated data determine header byte and transaction id |
| `TinyFrameCodec.HeaderLayout` | src/tiny_frame.rs:219-222 | where type, flags, transaction id and length stand in the eleven header bytes, most significant byte first |
| `TinyFrameCodec.PayloadLayout` | src/tiny_frame.rs:203-210 | for flags 0, 1 and 2 the payload is the data, its gzip or its deflate form; for 4, 5 and 6 a key was there and it is the nonce and the seal of the same under the first nine bytes |
| `TinyFrameCodec.DecryptUndoes` | src/tiny_frame.rs:148-193 | decrypting undoes encrypting, the split at the nonce included |
| `TinyFrameCodec.ReadUndoesBuild` | src/tiny_frame.rs:195-248 | any writer's frame is read by any interoperating reader to the same frame, leaving exactly what follows it |
| `TinyFrameCodec.WriterDomain` | src/tiny_frame.rs:195-217 | the writer succeeds if and only if the type is at most 31, the flags are 0, 1, 2, 4, 5 or 6, a key is there for 4 and more, and the packed length, plus 28 for 4 and more, is at most 65535 |
| `TinyFrameCodec.WritersAgreeOnDomain` | tinyframe/frame.go:217-241 | two writers accept the same requests whenever their compressed lengths agree |
| `TinyFrameCodec.CanonicalParsing` | src/tiny_frame.rs:227-248 | an uncompressed plaintext frame that reads successfully rebuilds to the very bytes consumed |
| `TinyFrameCodec.Reassemble` | src/tiny_frame.rs:289-307 | the fields read from any stream determine the bytes consumed |
| `TinyFrameCodec.NoPrefixReads` | src/tiny_frame.rs:289-307 | no proper prefix of a built frame reads |
| `TinyFrameCodec.BuiltFramesPrefixFree` | src/tiny_frame.rs:219-224 | no built frame is a proper prefix of another, whoever built them |
| `TinyFrameCodec.WireLength` | src/tiny_frame.rs:219-224 | a frame's length is announced by its own length field |
| `TinyFrameCodec.TruncatedStream` | src/tiny_frame.rs:311-330 | a stream cut after any byte yields exactly the frames before the cut, then ends cleanly between frames and fails within one |
| `TinyFrameCodec.StreamRoundTrip` | src/tiny_frame.rs:195-248 | every list of writable frames is read back from its concatenated bytes, with nothing left over |
| `TinyFrameCodec.EncryptedReading` | src/tiny_frame.rs:227-248 | a stream reads as an encrypted frame only if the AEAD opens its payload under its first nine bytes, and then to the decompressed plaintext |
| `TinyFrameCodec.EncryptedFramesAreGenuine` | src/tiny_frame.rs:169-193 | under an ideal AEAD every frame that reads as encrypted equals one a writer built, in type, compress id, transaction id and data |
| `TinyFrameReference.BuildIsWritten` | tinyframe/frame.go:217-251 | which bytes, or which error, every request gives, by the numbers in type and flags |
| `TinyFrameReference.ReadIsReceived` | tinyframe/frame.go:278-335 | which frame, or which error, every byte stream gives, and what it leaves, by the numbers in its bytes |
| `TinyFrameCodec.IdealOpenerReads` | src/tiny_frame.rs:148-193 | every working implementation has a receiver that opens only what was sealed for a given list of requests and reads all of their frames |
| `TinyFrameIo.BuildWireFrame` | src/tiny_frame.rs:195-225 | the buffer grown step by step, u16 cast included, is the frame of the codec |
| `TinyFrameIo.ReadFrameHeader` | src/tiny_frame.rs:289-307 | consumes exactly one frame or fails with an unexpected end of stream |
| `TinyFrameIo.ReadFrameRust` | src/tiny_frame.rs:333-336 | result and remaining stream are those of the codec's reader |
| `TinyFrameIo.WriteFrameWithKey` | tinyframe/frame.go:217-260 | writes the codec's frame whole, or fails with the codec's error and writes nothing |
| `TinyFrameIo.ReadFrameGo` | tinyframe/frame.go:278-335 | result and remaining stream are those of the codec's reader |
| `Metrics.RenameBase` | src/prom_proxy/encode.rs:185-199 | renaming a base label list changes its name and nothing else |
| `MetricsEncode.Rename` | promproxy/encode.go:98-108 | the copying loop replaces the first `__name__` label in place, or puts one in front if there is none |
| `MetricsEncode.EncodeRust` | src/prom_proxy/encode.rs:100-168 | the nested loops compute the flattening, family by family, metric by metric |
| `MetricsEncode.EncodeGo` | promproxy/encode.go:18-69 | the nested loops compute the Go flattening, with the error for unknown types |
| `MetricsEmission.SimpleEmission` | promproxy/encode.go:35-40 | a counter or gauge emits one series in both encoders, an untyped metric one in Go and none in Rust, with exactly these labels, this value and the effective timestamp |
| `MetricsEmission.HistogramEmission` | src/prom_proxy/encode.rs:122-145 | a histogram emits sum, count, one bucket a bound and the `+Inf` bucket with the count, in both encoders, each written out |
| `MetricsEmission.SummaryEmission` | src/prom_proxy/encode.rs:146-162 | a summary emits sum, count and one series a quantile, in both encoders, each written out |
| `MetricsEmission.EmittedInOrder` | src/prom_proxy/encode.rs:104-165 | the series of every metric stand right after those of all metrics before it, and there are no others |
| `Metrics.GoFlattens` | promproxy/encode.go:22-65 | Go fails exactly if a family of unknown type has a metric, and otherwise flattens the families that are not nil |
| `MetricsDecode.FamiliesShareNoName` | src/prom_proxy/encode.rs:122-161 | if names are distinct and none is a histogram or summary name plus a suffix, no two families emit a series of the same name |
| `MetricsDecode.BucketsComeBack` | src/prom_proxy/encode.rs:130-143 | bucket series decode to the buckets, one that itself prints as `+Inf` included, and leave the added `+Inf` bucket |
| `MetricsDecode.QuantilesComeBack` | src/prom_proxy/encode.rs:153-160 | quantile series decode to the quantiles and stop where the next metric begins |
| `MetricsDecode.FamilyComesBack` | src/prom_proxy/encode.rs:104-165 | a family's series decode to its metrics, in order, whatever follows |
| `MetricsDecode.FlatteningIsLossless` | src/prom_proxy/encode.rs:100-183 | for families that emit no series of the same name: told only names and types, a decoder recovers every value, bucket, quantile, label list and effective timestamp of the types an encoder supports, for either encoder |
| `MetricsDecode.GoFlatteningIsLossless` | promproxy/encode.go:22-65 | the same of what the Go encoder returns, untyped metrics and zero timestamps included |
| `MetricsDecode.NameCollisionLosesData` | src/prom_proxy/encode.rs:146-152 | without the condition on names, two different inputs of the same names and types flatten to the same series |
| `MetricsLossless.SumThenCount` | src/prom_proxy/encode.rs:113-152 | if plain series named `a_sum` are followed, in what the families after them emit, by one named `a_count`, then one of those families is a supported single-number family `a_count`, and the next series carries no extra label |
| `MetricsLossless.SameSeriesSameContents` | src/prom_proxy/encode.rs:100-183 | two inputs of one schema with the same series have the same contents, unless a summary is mimicked |
| `MetricsLossless.OnlyNumbers` | src/prom_proxy/encode.rs:113-118 | if a summary is mimicked, two numbers of other families flatten to the series of a summary without quantiles |
| `MetricsLossless.LosslessIffNotMimicked` | src/prom_proxy/encode.rs:100-168 | for distinct names, flattening is injective on the inputs of a schema if and only if no summary `a` has supported single-number families `a_sum` and, after it, `a_count`; for either encoder |
| `MetricsSeries.SeriesShaped` | src/prom_proxy/encode.rs:113-162 | every series carries its metric's labels under a name of its family, with at most one extra label, `le` or `quantile`, at the end |
| `MetricsSeries.ShapeDetermines` | src/prom_proxy/encode.rs:170-199 | within a family the labels of a series determine the label list of its metric |
| `MetricsSeries.MetricDistinct` | src/prom_proxy/encode.rs:122-161 | the series of one metric are distinct if and only if its bounds, or quantiles, print distinctly and no bound prints as `+Inf` |
| `MetricsSeries.FamilyDistinct` | src/prom_proxy/encode.rs:104-165 | the series of one family are distinct if and only if its type is unsupported, or its label lists are distinct and its bounds and quantiles print distinctly |
| `MetricsSeries.SeriesAreDistinct` | src/prom_proxy/encode.rs:122-161 | for families whose names are apart: no two series of the whole output carry the same labels if and only if that holds within every family, for either encoder |
| `MetricsSeries.GoSeriesAreDistinct` | promproxy/encode.go:22-65 | the same of what the Go encoder returns |
| `MetricsSeries.InfiniteBoundCollides` | promproxy/encode.go:45-51 | a bound printed as `+Inf` makes two series with the same labels |
| `MetricsSeries.TaggedSorted` | src/prom_proxy/encode.rs:130-135 | a series with an extra label is sorted exactly when every user label comes before that label |
| `MetricsSeries.LabelsAreWellFormed` | src/prom_proxy/encode.rs:130-183 | label names are unique with `__name__` first; plain series are sorted; bucket and quantile series exactly when their user labels come before the extra one; for either encoder |
| `MetricsSeries.GoLabelsAreWellFormed` | promproxy/encode.go:41-60 | the same of what the Go encoder returns |
| `MetricsAgreement.TimestampShows` | promproxy/encode.go:29-32 | a metric flattens to the same series under two timestamps only if they are equal |
| `MetricsAgreement.EncodersAgreeExactly` | promproxy/encode.go:22-65 | the two encoders give the same series if and only if all metrics are counters, gauges, histograms or summaries with timestamps absent or nonzero (or the clock reads zero) |
| `TxIds.NextIsIdAt` | src/prom_proxy/client.rs:46-50 | Go's and Rust's successor agree and step through `1 + k mod (2^64 - 1)` |
| `TxIds.IdsInOrder` | promproxy/client.go:107-122 | under every interleaving of goroutines the k-th success returns `1 + k mod (2^64 - 1)`, never zero |
| `TxIds.ConsecutiveIdsDistinct` | promproxy/client.go:111-122 | any `2^64 - 1` consecutive ids are distinct |
| `TxIds.PeriodIsExact` | promproxy/client.go:111-122 | the sequence repeats after exactly that many |
| `TxIds.FailureMeansProgress` | promproxy/client.go:118-120 | a failed swap implies that another goroutine's swap succeeded since the load |
| `TxIds.RustCounter.NextTxId` | src/dfinder/client.rs:65-69 | issues the next id of the same sequence |
| `TxIds.GoAllocator.NextTxId` | promproxy/client.go:111-122 | under any contention the retry loop returns an id newly issued to it, next in the common order |
| `ProxyEdges.CountersConserved` | src/prom_proxy/edge.rs:37-44 | every field equals its initial value plus the successful increments of it, under every interleaving |
| `ProxyEdges.FlushReads` | src/prom_proxy/server.rs:191-216 | what a flush reads for a key is its initial value plus the successful increments of it; fields below zero are not read |
| `ProxyEdges.StepGrows` | src/prom_proxy/edge.rs:37-54 | a step keeps or raises every total unless it increments a field that is read by 2^63 or more, and then it does not |
| `ProxyEdges.FlushesNeverDecrease` | src/prom_proxy/server.rs:191-216 | what any later flush reads is, key by key, at least what any earlier one read, if and only if no such increment happens |
| `ProxyEdges.AcksConserved` | src/prom_proxy/server.rs:162-176 | attempts to count a success equal acknowledgements written, failed and still due, so acknowledgements never run ahead |
| `ProxyEdges.RepliesAreCounted` | src/prom_proxy/server.rs:149-185 | every reply is the acknowledgement with the upstream status, or the error, of its own request's transaction id, and comes after that outcome was received and counted under `remote_write_ok` or `remote_write_err`; a rejected request is neither forwarded nor counted |
| `ProxyEdges.AtMostOneReply` | src/prom_proxy/server.rs:149-185 | no connection gets two replies |
| `ProxyEdges.EdgeStore.Incr` | src/prom_proxy/edge.rs:37-44 | adds the delta, cast to a signed number, to one field, or fails and changes nothing; zero never fails |
| `ProxyEdges.EdgeStore.ReadTotals` | src/prom_proxy/edge.rs:47-54 | returns exactly the fields that are not negative, each with its value |
| `ProxyEdges.Proxy.HandleConn` | src/prom_proxy/server.rs:149-185 | with arbitrary steps of others wherever it waits, a connection is a run in which it forwards once, counts the outcome once under its key and then replies once, with the upstream status or an error; or only replies with an error |

## Left out

- `RegistryRemoval.BoundedRemoval`: counts from a point after the last restart, because a restart starts every lease anew; the starting state may be the restart itself.
- `RegistryLease.LeaseIffNoPendingMark`: asks `d < ttl`, since for `d >= ttl` the bound promises nothing, and that no open cycle is late already, since a late one cannot go on in a timely run.
- `RegistryServer.Server.RunProbeCycle`: a restart in the middle of a cycle ends the cycle and is covered by the state machine only.
- `ProxyEdges.EdgeStore.Incr`: an increment whose answer from Redis is lost is not modelled.
- `MetricsDecode.FlatteningIsLossless`: asks that the bounds, quantiles and counts of the input survive printing and conversion.
- `MetricsLossless.LosslessIffNotMimicked`: speaks of inputs with distinct family names, sorted user labels without `le` and `quantile`, and numbers that survive conversion.
- `MetricsSeries.SeriesAreDistinct`: asks that no two families emit series of the same name, and is exact for those.
- The labelled series that `flush_edges` makes of the totals it reads.
- TCP: accept loops, dialing, deadlines, spawning and aborting of tasks.
- SQLite (a map; the order of rows is left open), Redis (a map whose increment adds or fails) and HTTP (any outcome). The store is kept across a restart; the in-memory store is not.
- JSON, protobuf and snappy encodings, and the text of error messages.
- The inside of gzip, deflate and ChaCha20-Poly1305, and nonce generation.
- The global encryption key; the key is an argument throughout.
- Floating-point formatting and rounding, `float_label` included.
- Errors of the underlying writer in the codec, and flushing.
- The client's local re-check of queried nodes (`src/dfinder/client.rs`), which filters a list.
- The blocking twin of the edge store, command-line tools, manifests, URL and hex parsing.
