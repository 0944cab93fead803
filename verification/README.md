# KVSSD: a model of the SSD-tiered quantized KV cache and its fused decode

KVSSD keeps the keys and values of a transformer's attention on an SSD. `KVCacheStore.create` cuts the tensors of each
layer into blocks of tokens, quantizes them groupwise to 2 or 4 bits with FP16 scales, and writes fixed-size records.
A decode step selects blocks, prefetches their records through a few reusable buffers, stages chunks of blocks on the
device, runs a fused kernel over the packed tokens of each chunk, and merges the chunks' partial results. A second
entry point lets vLLM offload its blocks: jobs run on a thread pool and records appear in a directory atomically.

This project models that system and proves that the parts fit together. Arithmetic is over exact reals, with `exp` and
`log` known only by their laws; FP16 rounding of the scales and half-to-even rounding of the codes are written out.

| File | What it covers |
|---|---|
| `Bytes`, `Indexing`, `Exponential`, `Half`, `Crc32`, `CrcNumbers` | little-endian fields, row-major index arithmetic, the laws of `exp` and `log`, binary16 rounding (IEEE 754-2019), CRC-32 (section 8 of RFC 1952) |
| `Attention`, `Online` | plain softmax attention, the merge of partial results, and one streaming softmax step |
| `Quant`, `QuantBounds`, `QuantStability` | the quantizer, its error bound, and when quantizing twice changes nothing |
| `Batches`, `FusedDecode`, `TritonDecode`, `Backends` | the stacked batch, both kernels and the reference backend |
| `Format`, `VllmCodec` | the two record formats |
| `Store`, `StoreReading`, `StoreTokens` | `create`, reading back, and the tokens that blocks stand for |
| `Selectors`, `Buffered` | block selection, and reads with a shared file offset |
| `Loader`, `LoaderObject`, `StoreLoading` | the prefetcher as a transition system, as an object, and over a store |
| `Staging`, `Pipeline`, `Streams`, `EndToEnd` | chunks, staging, the streamed decode, stream ordering, and the whole decode step |
| `RecordPaths`, `AtomicStore`, `AtomicWriter` | record and temporary names, and the atomic store protocol |
| `TierJobs`, `TierAnswers`, `TierManager`, `TierWorkers` | the vLLM tier manager as a transition system and as an object, and the jobs its workers run |

Concurrent parts (`Loader`, `Streams`, `Buffered`, `AtomicStore`, `TierJobs`) are transition systems whose theorems
hold for every interleaving. The classes beside them (`LoaderObject`, `AtomicWriter`, `TierManager`) are the methods as
the program writes them, with other threads interfering between statements, and are proved against those systems.

The main result is `EndToEnd.Decode`: for a store made by `create`, a decode step returns plain softmax attention over
the quantized-then-restored tokens of the selected blocks, for every number of prefetch slots, stage size, backend,
order of completion and thread schedule, where the threads may pass every round of every token in another order.

Where the code does less than one might expect, the exact condition is stated. Requantization is stable except for
groups whose scale FP16 flushes to zero (`QuantStability.RequantizeIff`). Without a free slot the loader silently yields
nothing (`Loader.Exhausted`, `Loader.NoSlotYieldsNothing`). A job refused by a pool that has shut down leaves its key
counts behind: over a run the counts are those of the tracked jobs exactly if no job that names a key was refused
(`TierJobs.CountsExactIff`), and such a key is answered RETRY for ever (`TierJobs.RefusedSubmitLeaks`). The kernels and the
reference backend read a valid count alike exactly when it does not drop tokens from the end of its block
(`Batches.CountsAgreeIff`). The Triton kernel by itself gives NaN when the first block has no valid token
(`TritonDecode.Program`); the check in `run` excludes that. It also loads the values of padded tokens and multiplies them
by zero: where it accepts the counts, the three backends agree exactly if no padded token has an infinite or NaN value
scale (`Backends.BackendsAgreeIff`, and `Backends.WidePadding` for a batch on which they differ). A record that decodes
encodes to the same bytes again exactly if it is padded with zeros and declares the payload length of its spec
(`Format.ReencodesIff`).

## Model

| member | source | states |
|---|---|---|
| Attention.ShiftInvariance | src/kvssd/backends/reference.py:46-49 | Subtracting any number from every score changes neither the softmax average nor the log-sum-exp: the identity that lets a streaming kernel work relative to a running maximum |
| Attention.SoftmaxWeights | src/kvssd/backends/reference.py:47-48 | Softmax weights are positive, add up to 1, and times exp(log-sum-exp) are the exponentials of the scores |
| Attention.GroupedHeads | src/kvssd/backends/reference.py:45-49 | Every run of query_heads / kv_heads consecutive query heads attends over one KV head: head r of group k over keys and values of KV head k |
| Attention.HeadElement | src/kvssd/attention.py:25-31 | One output element and log-sum-exp, given the head's scaled dot products and value elements as plain numbers |
| Attention.MergeAdds | src/kvssd/attention.py:98-101 | Merging two chunks adds their normalizers and their unnormalized outputs, for every output and log-sum-exp |
| Attention.MergeCommutes | src/kvssd/attention.py:91-102 | The order of two chunks does not matter |
| Attention.MergeAssociates | src/kvssd/attention.py:91-102 | How three chunks are bracketed does not matter |
| Attention.MergeOfReferences | src/kvssd/attention.py:91-102 | Merging attention over two token runs is attention over their concatenation, for output and log-sum-exp |
| Attention.MergeAllReferences | src/kvssd/pipeline.py:147-153 | The left fold over any number of non-empty chunks is attention over all their tokens |
| Online.TracksStep | csrc/fused_decode.cu:65-84 | One streaming step keeps: running maximum is the largest score m, running sum is the sum of exp(s - m), each accumulator is the sum of exp(s - m) * v, also on the first step from minus infinity |
| Online.TracksFinal | csrc/fused_decode.cu:88-89 | Dividing by the running sum, and adding its logarithm to the running maximum, gives the reference output and log-sum-exp of the head |
| Half.RoundOfValue | src/kvssd/quant.py:61 | Rounding to FP16 is idempotent: a representable scale rounds to itself |
| Half.RoundFiniteIff | src/kvssd/quant.py:61 | A scale rounds to a finite FP16 value exactly below 65520 |
| Half.RoundNearest | src/kvssd/quant.py:61 | No finite FP16 value is nearer to the scale than the one it rounds to |
| Half.RoundTieEven | src/kvssd/quant.py:61 | When two FP16 values are equally near, the one with the even pattern is taken |
| Half.Landmarks | src/kvssd/quant.py:61 | The values of patterns that fix sign, exponent and fraction as section 3.4 of IEEE 754-2019 reads them |
| Half.RoundRelativeError | src/kvssd/quant.py:61 | From the least normal value on, FP16 rounding moves a scale by at most one part in 2048 |
| Quant.UnpackPackIff | src/kvssd/quant.py:28-46 | Unpacking a packed code sequence gives it back exactly when every code fits its field |
| Quant.PackUnpack | src/kvssd/quant.py:28-46 | Packing the unpacked codes of any byte string gives that byte string |
| Quant.LowBitsFirst | src/kvssd/quant.py:35-37 | The byte is the sum of its codes, the first one in the lowest bits |
| QuantBounds.RoundsToEvenIff | src/kvssd/quant.py:57 | Rounding gives an integer exactly when it is within 1/2, and in a tie even |
| QuantBounds.ScaleIsLeast | src/kvssd/quant.py:56 | P scales, P being 1 or 7, cover the group and 1e-8, and equal its largest magnitude or 1e-8 |
| QuantBounds.CodesInRange | src/kvssd/quant.py:56-58 | Every stored code lies in [-P, P] after centering; the lower clamp never applies and the unsigned code 0 is never stored |
| QuantBounds.CodeIsNearestEven | src/kvssd/quant.py:57-58 | The stored code is c + 2 or c + 8 exactly for the integer c nearest to the element over its scale, the even one in a tie |
| QuantBounds.TiesAreEven | src/kvssd/quant.py:57-58 | A concrete group: 2.5, 3.5 and -2.5 steps are coded as 2, 4 and -2 |
| QuantBounds.FiniteScalesIff | src/kvssd/quant.py:56-61 | All scales are finite in FP16 exactly when every group's largest magnitude is below 65520 * P |
| QuantBounds.RestoredMultiple | src/kvssd/quant.py:49-73 | Element i comes back as c times the FP16 value of its group's scale, for the integer c nearest to the element over the scale, the even one in a tie |
| QuantBounds.ErrorBound | src/kvssd/quant.py:49-73 | The error of an element is at most half its scale plus P times what FP16 rounding did to the scale |
| QuantBounds.NormalErrorBound | src/kvssd/quant.py:49-73 | With a scale in the normal FP16 range the error is at most the scale times (1/2 + P/2048) |
| QuantBounds.ZeroIsExact | src/kvssd/quant.py:57-72 | A zero element comes back as an exact zero |
| QuantStability.RequantizeIff | src/kvssd/quant.py:49-73 | Quantizing a dequantized tensor gives the same codes and scales exactly when, in every group, the largest magnitude exceeds P / 2^25 or is at most 1e-8 / (2 P) |
| QuantStability.SmallGroupIsLost | src/kvssd/quant.py:56-61 | A concrete group of 1e-7 elements is not stable: FP16 flushes its scale to zero |
| Batches.SplitRow | csrc/fused_decode.cu:50-55 | The byte and group index of an element of a flat row-major tensor split into row and column parts that stay in bounds |
| Batches.LoadIsElement | csrc/fused_decode.cu:50-56 | The kernel's flat byte address, shift, mask and scale address give exactly the element of the dequantized tensor |
| Batches.TensorShape | src/kvssd/backends/base.py:29-53 | Stacked payloads that pass the launch checks form one well-shaped quantized tensor |
| Batches.CountsAgreeIff | src/kvssd/backends/reference.py:38-40 | The loops of the kernels and the slices of the reference backend read all counts alike exactly when no negative count leaves tokens in its slice |
| FusedDecode.ThreadCount | csrc/fused_decode.cu:123-124 | The doubling loop gives the smallest power of two from 32 on that covers the head dimension, at most 256 for head dimensions up to 256 |
| FusedDecode.Round | csrc/fused_decode.cu:61-63 | One round between barriers adds the upper half to the lower half and leaves the rest, whatever the order of the threads |
| FusedDecode.TreeReduce | csrc/fused_decode.cu:59-64 | For any power-of-two width and any thread order in every round, cell 0 ends up with the sum of all the partials |
| FusedDecode.SumIsDot | csrc/fused_decode.cu:48-59 | The threads' partial products, zero beyond the head dimension, sum to the dot product of query row and key |
| FusedDecode.ThreadPartial | csrc/fused_decode.cu:48-58 | With at least head_dim threads a thread's strided loop contributes its one product or nothing |
| FusedDecode.Accumulate | csrc/fused_decode.cu:75-84 | Every thread below head_dim rescales its accumulator and adds its dequantized value element times the new weight |
| FusedDecode.TokenStep | csrc/fused_decode.cu:47-86 | One token, reduction included, advances the streaming invariant by exactly that token |
| FusedDecode.KernelLoop | csrc/fused_decode.cu:42-87 | After all blocks the running quantities are those of all valid tokens, in order, a count below zero giving none, whatever the bytes and scales of the padding |
| FusedDecode.CellsApart | csrc/fused_decode.cu:88 | Different heads and dimensions are stored in different cells of the output |
| FusedDecode.KernelBlock | csrc/fused_decode.cu:32-90 | A thread block stores the reference output row and log-sum-exp of its head, or minus infinity as log-sum-exp when there is no valid token, and disturbs no other head |
| FusedDecode.Run | csrc/fused_decode.cu:92-144 | For every thread order in every round, the launch returns the reference output and log-sum-exp of every query head; counts below zero give no tokens, scales of padded tokens may be anything, and without any token every log-sum-exp is minus infinity |
| TritonDecode.NextPowerOf2 | src/kvssd/backends/triton.py:172 | The lane count is the least power of two that covers the head dimension |
| TritonDecode.PaddingStep | src/kvssd/backends/triton.py:59-97 | After a valid token, a padded token keeps the maximum, the sum, and every lane in which its value is a number; the lanes where its value scale is infinite or NaN become NaN and stay that. Its key plays no part |
| TritonDecode.DeadStep | src/kvssd/backends/triton.py:77-97 | A padded token before any valid one makes sum and accumulators NaN, and they stay NaN whatever follows |
| TritonDecode.Program | src/kvssd/backends/triton.py:42-105 | For any counts and any padding: when the first block has a valid token, the log-sum-exp is that of the reference over the masked tokens and so is every output lane, except that a lane is NaN exactly if some padded token has an infinite or NaN value scale there; when it has none, all is NaN |
| TritonDecode.Run | src/kvssd/backends/triton.py:161-200 | The call succeeds exactly for head dimensions up to 256 and positive counts, and then every head is the reference, but NaN in exactly the lanes where a padded token has an infinite or NaN value scale; a count beyond the block means the whole block |
| Backends.RunReference | src/kvssd/backends/reference.py:22-50 | The loop that gathers the slices [:valid] attends over exactly the tokens they keep, also for counts outside the block and whatever the scales of the dropped tokens |
| Backends.RowsInOrder | csrc/fused_decode.cu:88 | Row h of the output is the h-th stretch of head_dim elements of the flat result |
| Backends.Run | src/kvssd/backends/base.py:64-69 | Every backend returns plain attention over the tokens it reads the counts to mean, which are the same for counts inside the block, Triton with NaN in the lanes that padding spoils; the accelerated ones refuse more than 256 dimensions, and Triton an empty block |
| Backends.TritonExactIff | src/kvssd/backends/triton.py:85-97 | The Triton answer equals the CUDA answer exactly when no padded token has an infinite or NaN value scale |
| Backends.BackendsAgreeIff | src/kvssd/backends/base.py:64-69 | For positive counts all three backends have an answer, those of reference and CUDA are equal, and that of Triton equals them exactly when no padded value scale is infinite or NaN |
| Backends.WidePadding | src/kvssd/backends/triton.py:91-97 | A concrete batch: a padded row of magnitude 458640, quantized to 4 bits, makes the whole Triton output NaN while the others give numbers |
| Format.AlignUp | src/kvssd/format.py:19-20 | The result is the least multiple of 4096 that is not below the value |
| Format.FieldsRoundTrip | src/kvssd/format.py:116-138 | Header fields that fit their widths are read back as written |
| Format.HalvesRoundTrip | src/kvssd/format.py:109-110 | Scales survive the view as bytes and back |
| Format.FieldsOfBytes | src/kvssd/format.py:138-139 | Any header bytes are the packing of the fields read from them |
| Format.BytesOfHalves | src/kvssd/format.py:166-167 | Any scale bytes survive being read as scales and viewed as bytes again |
| Format.PayloadOfSlices | src/kvssd/format.py:154-177 | The block cut from a record is laid out like the spec and has the record's payload |
| Format.ReencodesIff | src/kvssd/format.py:104-177 | A record that passes its checksum decodes to a block that encodes to the very same bytes exactly when it has the spec's size and payload length and zeros for padding |
| Format.EncodeSucceedsIff | src/kvssd/format.py:104-131 | For a block laid out like the spec, encoding succeeds exactly when every header field is a 32-bit number; the record then has the spec's size, a multiple of 4096, and the payload's CRC-32 |
| Format.RecordLayout | src/kvssd/format.py:115-131 | The bytes of a record: the magic, eleven four-byte fields at their places with the payload's CRC last, and zeros up to the next multiple of 4096 |
| Format.PayloadLayout | src/kvssd/format.py:108-114 | The payload: key scales, value scales, key codes, value codes, scale i in bytes 2 i and 2 i + 1 |
| Format.RecordRoundTrip | src/kvssd/format.py:104-177 | Decoding an encoded block gives the block back, with or without the checksum |
| Format.CorruptionCaught | src/kvssd/format.py:150-152 | Any change of the payload inside four consecutive bytes is rejected as a CRC mismatch |
| Crc32.PolynomialNumber | src/kvssd/format.py:115 | The register polynomial is 0xEDB88320 of section 8 of RFC 1952 |
| Crc32.UpdateIsSteps | src/kvssd/format.py:115 | The table-driven byte update of section 8 of RFC 1952 is eight register steps |
| Crc32.BurstChangesChecksum | src/kvssd/format.py:150-152 | Two byte strings that differ only inside four consecutive bytes have different checksums |
| CrcNumbers.ZeroByte | src/kvssd/format.py:115 | A check value: the CRC of one zero byte is 0xD202EF8D |
| CrcNumbers.Residue | src/kvssd/format.py:115 | Any message followed by its own CRC, low byte first, has the CRC 0x2144DF1C, which preset and complement of section 8 of RFC 1952 give |
| VllmCodec.EncodeSucceedsIff | src/kvssd/integrations/vllm_codec.py:41-70 | Encoding succeeds exactly for a non-empty view of whole items, a whole number of groups, and counts below 2^32; the record is padded to 4096 bytes |
| VllmCodec.RecordLayout | src/kvssd/integrations/vllm_codec.py:53-70 | The bytes of a record: magic, version, bits, dtype code, a zero byte, four counts with the payload's CRC last, scales, codes, and zeros up to the next multiple of 4096 |
| VllmCodec.ParsedLayout | src/kvssd/integrations/vllm_codec.py:73-97 | Whatever a reader accepts has exactly that header for what it parsed, the spare byte aside, and the parsed tensor as payload |
| VllmCodec.ParseUndoesEncode | src/kvssd/integrations/vllm_codec.py:53-97 | A reader parses exactly the quantized tensor, dtype and element count that were encoded |
| VllmCodec.Decode | src/kvssd/integrations/vllm_codec.py:73-102 | A decode that raises leaves every byte of the destination as it was; one that succeeds writes exactly the dequantized record |
| VllmCodec.BlockRoundTrip | src/kvssd/integrations/vllm_codec.py:41-102 | Decoding an encoded block writes its items, quantized and restored, in the declared dtype, also for groups whose scale is infinite |
| VllmCodec.FlatItemsIff | src/kvssd/integrations/vllm_codec.py:33-38 | Flattening a view gives exactly the numbers of its items, first to last |
| VllmCodec.StoredBound | src/kvssd/integrations/vllm_codec.py:53-102 | What comes back for an item is a number within half a scale plus P times the rounding of the scale, and no number exactly when its group reaches 65520 * P |
| VllmCodec.DecodedItems | src/kvssd/integrations/vllm_codec.py:41-102 | Item by item: bytes i * size to i * size + size of the decoded block are item i of the view, quantized and restored |
| VllmCodec.PreservedBlock | src/kvssd/integrations/vllm_codec.py:41-102 | A block whose values quantization preserves, in a dtype that writes what it reads, comes back byte for byte |
| VllmCodec.CorruptionCaught | src/kvssd/integrations/vllm_codec.py:85-89 | Any payload change inside four consecutive bytes is rejected whatever the destination |
| Store.BlockCount | src/kvssd/store.py:47 | The blocks cover all tokens and every block starts before the last token |
| Store.ValidTokens | src/kvssd/store.py:48 | Every block has between one and block_tokens valid tokens, none past the end |
| Store.PadBlock | src/kvssd/store.py:50-53 | A zeroed buffer with the valid rows copied in is the block of the layer, zeros past the last token |
| Store.WriteBlock | src/kvssd/store.py:48-61 | One block is padded, quantized and encoded; it fails exactly when a header field does not fit, and then with that error |
| Store.Create | src/kvssd/store.py:28-67 | The file and the entries hold the record of every layer and block, in order; bad specs and shapes are refused, a group size that is not pack-aligned only once there is a token, and otherwise creation succeeds exactly when every header field fits 32 bits |
| StoreReading.EntriesUnique | src/kvssd/store.py:24 | Layer and block identify an entry |
| StoreReading.Layout | src/kvssd/store.py:62-64 | Entry i lies at i * record_bytes, 4096-aligned, directly before the next one, and the records cover the file |
| StoreReading.EntryOf | src/kvssd/store.py:46-64 | The entry of layer l, block b is number l * n + b and holds its offset, length, valid count and the CRC of its payload |
| StoreReading.ReadBack | src/kvssd/store.py:80-98 | Reading finds exactly the blocks that were written, each as it was packed, and a KeyError for everything else |
| StoreReading.BlocksAreRange | src/kvssd/store.py:86-87 | blocks_for_layer is 0, 1, ... up to the block count, and empty for other layers |
| StoreReading.BlocksOfLayer | src/kvssd/store.py:86-87 | For any manifest, blocks_for_layer is ascending and has each block as often as an entry names it |
| StoreReading.ValidCountsCover | src/kvssd/store.py:47-48 | The valid counts of a layer add up to its tokens |
| StoreTokens.RestoredInBlock | src/kvssd/store.py:50-60 | Quantizing a padded block restores every row as quantizing that row alone would |
| StoreTokens.PaddingRestoresToZero | src/kvssd/store.py:50-53 | Past the last token every restored element is an exact zero |
| StoreTokens.HeadOfRow | src/kvssd/store.py:50-53 | KV head k of a token is elements k * head_dim to (k + 1) * head_dim of its row, quantized and restored |
| StoreTokens.SelectedRange | src/kvssd/store.py:47-53 | The first n blocks together stand for the first n * block_tokens tokens |
| StoreTokens.SelectedNext | src/kvssd/store.py:47-53 | A further block adds the tokens from b * block_tokens to the end of the block or of the layer |
| StoreTokens.EveryBlock | src/kvssd/store.py:86-98 | All blocks in order stand for every token of the layer, in order |
| StoreTokens.TokensOfBlocks | src/kvssd/store.py:46-61 | The valid prefixes of any chosen stored blocks are the restored cached tokens they stand for |
| Selectors.DedupKeepsFirsts | src/kvssd/selectors.py:28 | Dedup keeps every element once, at the place of its first occurrence |
| Selectors.SinkAndRecent | src/kvssd/selectors.py:24-28 | Over distinct blocks the choice is everything when prefix and suffix meet, otherwise the prefix followed by the suffix |
| Selectors.SelectsNothingIff | src/kvssd/selectors.py:13-28 | Selection fails exactly for a negative count, and is empty exactly for no available blocks or both counts zero |
| Selectors.SelectsAvailable | src/kvssd/selectors.py:24-28 | Every selected block was available |
| Buffered.ReadPositioned | src/kvssd/storage/buffered.py:53-76 | The single positioned read succeeds exactly when it returned the whole record, and then the destination holds it |
| Buffered.ReadFallback | src/kvssd/storage/buffered.py:63-76 | The loop over short reads succeeds exactly when the file holds the whole record, and then the destination holds it; bytes past the record stay |
| Buffered.SharedOffsetIsSafe | src/kvssd/storage/buffered.py:63-71 | However readers of one descriptor interleave, the lock makes each finished one hold exactly the bytes of its own record |
| Loader.ActionKeeps | src/kvssd/loader.py:47-102 | Every action of the consumer, a worker or the stream keeps the whole invariant |
| Loader.Reachable | src/kvssd/loader.py:47-102 | In every state of every interleaving, over any number of calls, the window, slot, buffer, event and output invariants hold |
| Loader.QueueNeverBlocks | src/kvssd/loader.py:51-62 | Whenever a submit is due, a slot is free |
| Loader.NoAliasing | src/kvssd/loader.py:51-59 | No two unfinished reads share a buffer, and no queued copy reads a buffer that a pending read may write |
| Loader.WorkersAreFree | src/kvssd/loader.py:57-65 | An unfinished worker may write anything into its slot and may finish, at any time |
| Loader.Exhausted | src/kvssd/loader.py:61-102 | Between calls everything requested has been yielded exactly when there is at least one slot or nothing was requested; all slots are free, and once the stream has run every block is made of its own record |
| Loader.NoSlotYieldsNothing | src/kvssd/loader.py:61-63 | From an empty queue of slots, a call for any number of blocks ends at once with nothing yielded |
| Loader.YieldedBlocksStay | src/kvssd/loader.py:70-100 | A detached slice of a yielded block never changes, whatever runs later |
| Loader.EveryActionCounts | src/kvssd/loader.py:61-102 | Every productive action uses up one unit of a bounded measure |
| Loader.CallsEnd | src/kvssd/loader.py:61-102 | A call takes a bounded number of productive actions |
| Loader.NeverStuck | src/kvssd/loader.py:61-102 | Until a call is over, the consumer, a worker or the stream can move |
| LoaderObject.AsyncBlockLoader.constructor | src/kvssd/loader.py:25-45 | A new loader has its slots in the queue and no read, event or copy outstanding |
| LoaderObject.AsyncBlockLoader.OneOther | src/kvssd/loader.py:57 | A move of a worker or of the stream is that action of the transition system |
| LoaderObject.AsyncBlockLoader.Submit | src/kvssd/loader.py:51-59 | Taking a slot, waiting for its event and submitting the read keeps the invariant and advances the control by one submit |
| LoaderObject.AsyncBlockLoader.Detach | src/kvssd/loader.py:70-98 | Detaching pops the oldest read, queues or makes its copies, records the event and advances the source |
| LoaderObject.AsyncBlockLoader.YieldNext | src/kvssd/loader.py:63-102 | One turn of the loop yields one more block |
| LoaderObject.AsyncBlockLoader.IterBlocks | src/kvssd/loader.py:47-102 | Driven to exhaustion with arbitrary interference, a call yields one block for each of its requests and returns all slots to the queue |
| StoreLoading.LoadedBlock | src/kvssd/loader.py:66-91 | Host slots through the record header and device slots through the manifest entry both yield exactly the block that was packed |
| StoreLoading.ReadInto | src/kvssd/store.py:89-90 | With the portable backend, reading any stored block succeeds however short the reads come back, and leaves in the destination the record that the block was encoded to |
| Staging.DequantizeConcat | src/kvssd/pipeline.py:78-82 | Dequantizing stacked payloads is stacking dequantized payloads |
| Staging.BatchTokens | src/kvssd/pipeline.py:67-116 | The tokens the backends attend over in a stacked batch are the blocks' valid tokens, in the order of the blocks |
| Pipeline.Chunks | src/kvssd/pipeline.py:57-65 | The chunks are non-empty, all but the last have exactly the stage size, and they concatenate to the source |
| Pipeline.Coalesce | src/kvssd/pipeline.py:98-108 | Filling a host buffer block by block leaves the blocks' parts one after the other |
| Pipeline.Stage | src/kvssd/pipeline.py:98-116 | The staged buffers are the stack of the blocks' payloads and valid counts |
| Pipeline.BackendReference | src/kvssd/attention.py:34-60 | Running a backend on stacked non-empty blocks is plain attention over their valid tokens |
| Pipeline.MergeNext | src/kvssd/pipeline.py:147-153 | Merging the next chunk extends attention over the earlier chunks by that chunk |
| Pipeline.FoldOfChunks | src/kvssd/pipeline.py:136-158 | However blocks with valid tokens are cut into non-empty chunks, the fold of the chunks' results is attention over all of them |
| Pipeline.DecodeStreamed | src/kvssd/pipeline.py:118-165 | For every stage size and thread schedule the streamed decode is plain attention over all loaded blocks; it fails exactly without blocks or, for the accelerated backends, above 256 dimensions |
| Streams.Reachable | src/kvssd/pipeline.py:67-165 | Under every schedule of the host and the three streams, device memory holds exactly what has been computed |
| Streams.NothingReadEarly | src/kvssd/pipeline.py:76-90 | A chunk is coalesced only from records already copied out of their slots, a kernel reads only a finished query and chunk, a merge only finished results, and the caller only the final merge |
| Streams.ResultOfEverySchedule | src/kvssd/pipeline.py:129-165 | When everything has run, the caller's stream holds the left fold of all chunk results |
| Streams.NeverStuck | src/kvssd/pipeline.py:129-163 | Until everything has run, the host or some stream can move: the events form no circle |
| Streams.SchedulesEnd | src/kvssd/pipeline.py:136-163 | Every schedule is finite, with at most eight steps a chunk and six more |
| EndToEnd.Load | src/kvssd/pipeline.py:174-180 | Prefetching any chosen blocks of a store that create wrote gives those blocks, in order |
| EndToEnd.DecodeBlocks | src/kvssd/pipeline.py:167-187 | For any non-empty choice of blocks, any number of slots, stage size, backend, worker and thread schedule, the result is plain attention over the quantized-then-restored tokens the blocks stand for |
| EndToEnd.Decode | src/kvssd/pipeline.py:167-187 | The same with the built-in selectors, and exactly when decode fails: a negative count, an empty choice, or too many dimensions for the backend |
| EndToEnd.AllBlocksIsWholeLayer | src/kvssd/selectors.py:11-14 | With all blocks selected, attention runs over every restored token of the layer, in order |
| EndToEnd.AttentionElement | src/kvssd/attention.py:25-31 | Any element of the answer of a decode step, from the scaled dot products with the keys and the values of the KV head that its query head shares |
| EndToEnd.EveryStreamSchedule | src/kvssd/pipeline.py:118-165 | For any cut of the stored blocks into non-empty chunks and any stream schedule, what the caller's stream reads is that same attention |
| RecordPaths.PathInjective | src/kvssd/integrations/vllm_codec.py:105-116 | Within a namespace, a record path determines its key |
| RecordPaths.SamplePath | src/kvssd/integrations/vllm_codec.py:105-130 | The path of a concrete key and the name of a temporary beside it, spelled out |
| RecordPaths.TemporaryIsNoRecord | src/kvssd/integrations/vllm_codec.py:130 | A temporary name is never the path of a record |
| RecordPaths.TemporariesApart | src/kvssd/integrations/vllm_codec.py:130 | Writers of different records, processes or threads never share a temporary |
| AtomicStore.RecordPathsAreFinals | src/kvssd/integrations/vllm_codec.py:105-130 | The record paths of any set of keys meet what the protocol needs of its names |
| AtomicStore.ActionKeeps | src/kvssd/integrations/vllm_codec.py:126-141 | Every step of every writer, every exception, every dying process and every power loss, which may undo renames and unlinks, keeps: record paths hold whole, durable, offered records, and writers own their temporaries |
| AtomicStore.FaultsHappen | src/kvssd/integrations/vllm_codec.py:126-141 | Exceptions, dying processes and power losses are possible in every state, and leave any part of the files, torn where they were not synced |
| AtomicStore.AbsentOrWhole | src/kvssd/integrations/vllm_codec.py:126-141 | After any run from any state that keeps the invariant, such as a directory that earlier processes filled, a record path is absent or holds exactly one whole record that some writer passed in for it |
| AtomicStore.NeverAbsentAgain | src/kvssd/integrations/vllm_codec.py:136 | Once present a record stays present, whatever writers do and processes die |
| AtomicStore.CallsCleanUp | src/kvssd/integrations/vllm_codec.py:131-141 | A call that leaves through the finally clause leaves no temporary; one that ends before it has touched no file |
| AtomicStore.StoredInRuns | src/kvssd/integrations/vllm_codec.py:136 | Over all runs from any such state: from the replace to the end of a call its record path is filled |
| AtomicStore.QuietStarts | src/kvssd/integrations/vllm_codec.py:126-141 | A directory without calls under way that holds whole records and any leftovers keeps the invariant, an empty one for instance |
| AtomicStore.PowerLossIsQuiet | src/kvssd/integrations/vllm_codec.py:130-141 | After a power loss, with entries lost, torn or brought back, the directory is one that further runs may start from |
| AtomicStore.LeftoverFailsOneCall | src/kvssd/integrations/vllm_codec.py:130-141 | A temporary that was left over fails the next call with the same process and thread numbers at its open, and that call removes it |
| AtomicWriter.Disk.StoreRecordAtomic | src/kvssd/integrations/vllm_codec.py:126-141 | With arbitrary interference, a call returns exactly when the record was already there, or no exception struck and no temporary of its name was left over; then its path holds a whole durable record. It leaves no temporary that was not there before, and none at all after the open |
| TierJobs.ActionKeeps | src/kvssd/integrations/vllm.py:110-192 | Every call, worker end and writer step keeps the manager's invariant |
| TierJobs.Reachable | src/kvssd/integrations/vllm.py:110-192 | In every reachable state the in-flight counts are the multiset sum of the keys of all tracked jobs, duplicates included, plus those of refused jobs, and every job is accounted for |
| TierJobs.InflightIff | src/kvssd/integrations/vllm.py:140-146 | A key's count is positive exactly while an unreaped job names it, or once a refused job has |
| TierJobs.AnswersOnlyWhenIdle | src/kvssd/integrations/vllm.py:110-123 | HIT or MISS is only answered for a key that no unreaped and no refused job names |
| TierJobs.HitIsWhole | src/kvssd/integrations/vllm.py:118-123 | A HIT means the key's path holds one whole record that some writer passed in |
| TierJobs.HitStaysSound | src/kvssd/integrations/vllm.py:118-138 | After a HIT, every later read of the path finds a whole offered record, whatever happens in between |
| TierJobs.JobsAccounted | src/kvssd/integrations/vllm.py:140-192 | Every submitted job is tracked, or returned once by a poll, or dropped by a drain: exactly one of them, once |
| TierJobs.SuccessMeansStored | src/kvssd/integrations/vllm.py:125-134 | A store job reported successful has left a record at the path of its n-th key whenever it was given an n-th block |
| TierAnswers.LookupCases | src/kvssd/integrations/vllm.py:110-123 | What a lookup answers and changes in every state, told by the jobs that name the key instead of by counts |
| TierAnswers.LookupAnswered | src/kvssd/integrations/vllm.py:110-123 | Over runs: a first lookup of an idle key answers RETRY, and once its worker has ended without raising, the request's next lookup while the key is idle answers HIT if the record was present when the worker ended, else MISS, and is forgotten; all others stay |
| TierAnswers.NothingBlocks | src/kvssd/integrations/vllm.py:110-180 | In every state lookups, submits, polls and the end of a request are possible, and any unfinished worker may raise |
| TierAnswers.ReportedId | src/kvssd/integrations/vllm.py:140-163 | Over runs: whatever polls report for a job, they report under the identifier it was submitted with |
| TierJobs.CountsExactIff | src/kvssd/integrations/vllm.py:143-146 | Over any run, the counts equal the sum over the tracked jobs exactly if no job that names a key was refused after shutdown |
| TierJobs.RefusedSubmitLeaks | src/kvssd/integrations/vllm.py:143-146 | After a refused job that names a key, whatever runs later, every lookup of that key is answered RETRY |
| TierJobs.RefusedStore | src/kvssd/integrations/vllm.py:143-146 | A concrete run: a new manager is shut down and a store of one key is submitted; its count stays though no job is tracked |
| TierManager.KVSSDSecondaryTierManager.Lookup | src/kvssd/integrations/vllm.py:110-123 | The method gives the specified answer and leaves the specified state: once the worker of a lookup has ended and no tracked or refused job names the key, HIT if it found the record, MISS if not, and only that lookup goes; a HIT only with the record present; with the pool shut down a new lookup raises |
| TierManager.KVSSDSecondaryTierManager.Submit | src/kvssd/integrations/vllm.py:140-146 | An open pool takes the job, whose keys are counted and which is appended; a pool that has been shut down refuses it after the keys were counted; nothing else changes |
| TierManager.KVSSDSecondaryTierManager.Shutdown | src/kvssd/integrations/vllm.py:194-195 | Shutting down ends with no further work accepted and everything submitted done |
| TierManager.KVSSDSecondaryTierManager.ReapJob | src/kvssd/integrations/vllm.py:160-163 | Reaping removes just that job, gives its keys back and reports success exactly when its function did not raise |
| TierManager.KVSSDSecondaryTierManager.GetFinishedJobs | src/kvssd/integrations/vllm.py:154-164 | With workers finishing meanwhile, a poll reaps in order of submission every job done at the start and whichever it saw end, reports each with success exactly when its function did not raise, and leaves the others tracked in order |
| TierManager.KVSSDSecondaryTierManager.HasPendingWork | src/kvssd/integrations/vllm.py:166-170 | Work is pending exactly while some submitted job has neither been returned by a poll nor dropped by a drain, or a lookup is not done; without pending work every job has been handed over once and only refused jobs are still counted |
| TierManager.KVSSDSecondaryTierManager.OnRequestFinished | src/kvssd/integrations/vllm.py:176-180 | The request's lookups are dropped, all others stay |
| TierManager.KVSSDSecondaryTierManager.DrainJobs | src/kvssd/integrations/vllm.py:182-192 | With nobody submitting, draining ends with no jobs, no lookups and no counts but those of refused jobs, having consumed every tracked job |
| TierWorkers.StoreJob | src/kvssd/integrations/vllm.py:125-134 | A store job that returns has stored, for every key paired with a block, the encoding of that block, and every such path is filled; it does return unless a key is short, a block cannot be encoded, an exception strikes a store, or a temporary was left over |
| TierWorkers.LoadOne | src/kvssd/integrations/vllm.py:136-138 | An item that raises leaves its destination as it was; one that loads leaves the decoding of one whole record offered for its key; it does load when the record was there, can be read, and all that was offered decodes |
| TierWorkers.LoadJob | src/kvssd/integrations/vllm.py:136-138 | A load job that returns found every paired key present and leaves in every destination, unless a later item names it again, the decoding of a whole record of its key, and writes no other; it does return when all records were there, can be read and decode |
| TierWorkers.LoadAfterHit | src/kvssd/integrations/vllm.py:110-138 | After a HIT and any run of the manager and other writers, a load of the key returns and leaves the stored block's items, restored and in order, if equal keys mean equal blocks and the file can be read |
| TierManager.HitThenLoad | src/kvssd/integrations/vllm.py:136-138 | From a HIT on, if equal keys mean equal blocks, a load decodes the bytes at the path into the stored block's items, restored and in order |

## Left out

- Float32 rounding in kernels and tensor code, `--use_fast_math`, and the casts of results to the query's dtype: results are exact reals.
- Infinite and NaN scales of valid tokens in the attention path: the backends are modelled for batches whose valid tokens have finite scales, with anything in the padding, and the pipeline for blocks with finite scales. The exact condition for a tensor to have them is `QuantBounds.FiniteScalesIff`. The vLLM codec carries them as non-numbers.
- FusedDecode.Run: a count above the block size is outside the contract, because the kernel then reads past the block, and past the tensor for the last one. Without any valid token the output is left undetermined, because the kernel divides by a shared cell that was never written.
- TritonDecode.Run: blocks of zero tokens are outside the contract; no store has them.
- Backends.Run: attention over no token at all, which the reference backend leaves to the tensor library, is outside the contract.
- The softmax scale is any real number; that `decode` passes 1/sqrt(head_dim) plays no part in the proofs.
- Store.Create: negative sizes in a spec are outside the model; the program refuses them in `validate` or when it first quantizes.
- The JSON manifest and its round trip: entries are values that are passed on.
- Header corruption: the checksum covers the payload only, so nothing is claimed about changed header bytes.
- Caller errors that the record readers report as Python type errors (dtype, device, contiguity of the raw tensor).
- LoaderObject.AsyncBlockLoader.Detach: a block is popped together with its copies, after its read has finished, while the program pops it just before waiting; no other thread looks at the pending list.
- Loader: reads and decodes that raise, and consumers that abandon the generator, lose their slots; calls are driven to exhaustion, one after the other. Several iterators over one loader at once are left out, and so are consumers that change the current stream during a call.
- Loader: what a worker writes before its read is finished is arbitrary; that a finished read holds the record is the contract of the storage backend, as `Buffered` shows for the portable one. cuFile and O_DIRECT are left out.
- Buffered: opening and closing the file descriptor, and errors of the system calls themselves.
- Allocation: the CUDA caching allocator, pinned memory, and `record_stream` lifetimes. Streams are FIFO queues with events.
- Streams: the host-to-device copies of one chunk are one operation, and the merge of a chunk is one operation.
- Device capability probes, backend and storage registries, and argument checks that only choose between them.
- AtomicStore: a reader takes the whole record in one step, because no writer changes a file that has been opened under its record path. Failing to remove a temporary for a reason other than its absence is left out, and so is directory creation.
- AtomicStore.NeverAbsentAgain: a power loss may take a record back, because the directory itself is not synced; that it never leaves a partial one is part of `AtomicStore.ActionKeeps`. Which entries it brings back is not limited to those that were really changed last.
- TierJobs: a worker that stores or loads is what `TierWorkers.StoreJob` and `TierWorkers.LoadJob` promise when they return; the bytes of the primary tier's memory are not part of the state, and a block number outside it is not modelled for loads.
- TierJobs: keys are any finite set fixed for a run, and the death of the manager's own process ends a run.
- TierManager.HitThenLoad: that equal keys mean equal block content is assumed of the caller, through the predicate `OffersEncode`.
- The vLLM base classes, the offloading spec class and its registration; the SHA-256 namespace is an opaque string.
- Command line, benchmarks, hardware reports and packaging.
