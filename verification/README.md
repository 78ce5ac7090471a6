# The XZ encoder and its readers

A model, in Dafny, of the Go package `goxz`: the Writer that compresses blocks in parallel, its
sequential path, the literal fallback, the file layout, the backward walk over the index, the
buffered coding loop and the synchronous Reader. The main results are about all inputs, all
interleavings or all runs:

* The asynchronous Writer refines the synchronous one, never deadlocks, always finishes, and loses
  no wakeup (`Pool`, `PipePool`, `Pipeline*`).
* Every chunk can be encoded in the space set aside for it, by compression or as a literal block
  (`Literal`, `Encoder`, `Sync`).
* The backward walk accepts exactly the files that consist of streams and padding, and finds in a
  written file the records that were appended (`Format`, `IndexWalk`, `WriterFile`).
* Process loses and reorders nothing, whatever the sizes of destinations; when it stops early is
  said exactly (`Coding`, `Process`, `Endings`).
* The Reader returns the contents of all blocks of any sequence of streams with padding, and a part
  of them when the source has been cut anywhere; the place where it is cut decides how the reading
  ends (`Plan`, `SyncReader`).
* Blocks, files and their parts are also given in numbers, byte by byte (`KnownFiles`,
  `Encoder.BlockAnatomy`, `Literal.StoredInNumbers`).
* What is written in parallel reads back as the data, also from many files in one (`ReadBack`,
  `Frames`, `StoredDecoder`).

## Modelling

* **Threads.** `Pipeline.State` holds the user, the workers, the writer routine, the monitor and the
  routine that waits for the workers. A label is one atomic step of one of them: a critical section
  of a pool, or a step on data that only that goroutine holds. What the scheduler, map iteration,
  `Signal` and the underlying writer choose is in the label. Workers are alike, so they are counted,
  and named by the chunk they hold. The wait for a mutex is not a state; a goroutine in `Wait` is
  asleep until a `Signal` or `Broadcast` reaches it, and then woken until it looks again.
* **Two views of the pool.** Module `Pool` has the critical sections as functions on sets of
  indices, and the lemmas about them. Class `PipePools.PipePool` has the maps of pipes, updated in
  place, and each method is proved to be the corresponding step.
* **Compressor.** A function of the whole chunk that gives its LZMA2 data; the output pipe decides
  whether there is room for it. Checksums are functions with results of known length. liblzma's
  decoders are abstract coders that may take and give as little as they like per call.
* **Partial input.** In asynchronous mode the fallback uses what the input pipe holds at that
  moment. The pipeline lets a worker finish a chunk only after the user has closed its pipe, that
  is, it assumes that a short write is seen only when the whole chunk has been supplied.
  `Encoder.FallbackNeedsWholeChunk` says why: with less the block is a different one. The
  synchronous path closes the pipe first.
* **Fresh indices.** Pipes keep their index while they are free, so conservation needs indices that
  are not used again; `Pool.ConservedIffFresh` says exactly when. The Writer counts up.
* **Pipes of the buffered-pipe library** have contracts inferred from their use: linear pipes take
  what fits and then report a short write, may be rolled back, and are read after they are closed;
  ring pipes offer their space in two slices; `ReadFrom` reads until the pipe is full or the source
  ends. A missing (nil) pipe is an empty one.
* **Panics** of the error library are outcomes. `errs.Assert(cond, nil)` ends a call without an error.

## Where code and intent differ

* `unrollIndex` passes the result of `Process` to `errs.Panic`, and `Process` never returns nil
  there (`IndexWalk.DecodeSection`). Taken literally, no file but the empty one has an index
  (`IndexWalk.AsWrittenRejects`). The other results about the walk let the end of the stream pass,
  as `xz/reader.go:148` does.
* `readFull` returns everything that is buffered when the bytes it wants wrap around the end of
  the ring. No valid stream can notice: headers and footers are decoded from their first bytes,
  and a word of padding never wraps, because everything before it is a multiple of four bytes.
* A destination of size zero can make a later call of `Process` fail with BUF_ERROR
  (`Endings.ZeroSizesFail`); the contract of `Process.CodingStream.Process` says exactly when.
* `Process` reports the end of the source as soon as both buffers are empty, even if the coder
  could still make output from what it has eaten (`Endings.FloodIsLost`). Every source that goes on
  beyond the coder's end is safe, as in a file (`Process.Pump`); for every non-empty input that ends
  with the coder there are a coder and a reader with which it is not
  (`Endings.EveryExactSourceCanEndEarly`), and `lzma/reader.go:31` reads such sources. Nothing is
  lost for a caller that goes on (`Endings.GoOn`).
* `Process` without a source and with a coder that needs more input, or without a destination and
  with a coder that has more output than its buffer holds, never returns: from some turn on a turn of
  the loop changes nothing (`Endings.NilSourceSpins`, `Endings.NilDestinationSpins`). No caller in
  the repository does that.
* A file that is cut inside a block's data or inside an index does not read as a bad format: Process
  reports the end of its source, and `Read` passes it on as the end of the file, unless the coder has
  starved in the call before, which makes it a BUF_ERROR (`Readers.ReadMany`, `ReadBack.ReadCut`).
  Only a cut elsewhere is noticed, and only when it leaves too little of a header, footer or word
  of padding.
* `getWriter` takes a pipe before it finds out that its index is a duplicate and panics
  (`Pool.LeakLoses`). The Writer never asks for one.
* `Close` writes an index that is too large for the footer before the footer fails. All data of more
  than 2^33 chunks is such (`WriterFile.LargeDataDoesNotFit`).
* `xz/writer.go:361` passes chunk size and output size in the opposite order to the parameter names
  of `blockInit`. The reserved space is the same (`Encoder.ReservedSuffices`).

## Model

| member | source | states |
|---|---|---|
| PipelineTheorems.AsyncRefinesSync | xz/writer.go:135-332 | For every interleaving: the bytes sent are a prefix of the synchronous path's file, the records appended a prefix of its records, also when the underlying writer fails; once Close has returned both are complete. No call into a pool panics, getWriter never refuses the user. |
| PipelineTheorems.NoDeadlock | xz/writer.go:226-332 | In every reachable state in which Close has not returned and the underlying writer has not failed, some goroutine has an enabled step (this needs the exemption of the awaited index from the capacity). |
| PipelineTheorems.EveryRunIsFinite | xz/writer.go:135-332 | No run is longer than a bound that depends only on the configuration and the script of Write calls, whatever map iteration, Signal and the scheduler choose. |
| PipelineTheorems.MaximalRunFinishes | xz/writer.go:187-224 | A run without a failure of the underlying writer that cannot be continued has made Close return with the whole file written; maxWorkers workers have been started by then, and both pools have that capacity. |
| PipelineTheorems.PoolsSound | xz/pool.go:46-62 | At every reachable state of the Writer the pipes of both pools are conserved, the active input pipes are exactly those that workers hold, the writer routine holds at most one output pipe, no wakeup of a writer or reader is lost, and the pools stay within cap and cap+1 pipes. |
| PipelineTheorems.DrainedWhenClosed | xz/pool.go:248-278 | The worker group's callback closes the output pool only after the input pool is closed and empty and no worker holds a chunk, even if workers exit before others are started; then every chunk has an encoded output. |
| PipelineTheorems.MemoryBound | xz/pool.go:83-87 | At most 2*maxWorkers+1 chunks are between Write and the underlying writer. |
| PipelineTheorems.InputPipesStay | xz/pool.go:91-105 | The Writer never drops an input pipe, makes one only when none is free, and so makes at most maxWorkers of them. |
| PipelineTheorems.TroubleStep | xz/writer.go:330-331 | No step but a failure of the underlying writer makes the writer routine fail; in particular the final sanity check finds the output pool empty. |
| PipelineSteps.StepKeeps | xz/writer.go:135-332 | Every kind of atomic step keeps the seven-part invariant. |
| PipelineRuns.StepDown | xz/writer.go:135-332 | Every step decreases the measure; a goroutine that goes to sleep pays with one unit of a bounded account. |
| PipelineRuns.ChunksFollow | xz/writer.go:142-159 | At every reachable state the chunks that have been closed are the corresponding chunks of the cut of the whole data, however the data is split over Write calls; when Close has closed the last one they are all of them. |
| PipelineRuns.SentWithin | xz/writer.go:315-326 | The bytes sent and the records appended are prefixes of the synchronous ones at every state that satisfies the invariant. |
| PipelineProgress.NotAllSleep | xz/pool.go:117-134 | The user, all workers and the writer routine are never asleep together: a chunk that is awaited would have to be queued still, and a queued chunk has a worker that is awake. |
| PipelineProgress.QueuedHasReader | xz/pool.go:111-143 | While a chunk is queued some worker without a chunk is awake: there are as many workers as input pipes, and a queued pipe is one that no worker holds. |
| Pool.ConservedIffFresh | xz/pool.go:34-38 | Giving out a pipe under an index keeps every pipe in one set and the count exact if and only if no active pipe bears the index and no free one that is left does. |
| Pool.LeakLoses | xz/pool.go:92-109 | A duplicate index panics after a pipe has been taken for it; that pipe stays counted and is in no set. |
| Pool.GetWriterServesWriters | xz/pool.go:83-112 | While writers sleep, at least as many are woken as there is room, and none that sleeps bears the awaited index; getWriter keeps that. |
| Pool.GetWriterServesReaders | xz/pool.go:110-111 | One Signal per ready pipe loses no reader, for readers of any pipe and for a single reader of a given one. |
| Pool.OneReaderPerPipe | xz/pool.go:90-111 | A pipe that becomes ready wakes one reader, if any sleeps, and no more; a pipe is made only when none is free. |
| Pool.TakeAnyKeeps | xz/pool.go:123-153 | getReader of any pipe keeps conservation and both wakeup invariants. |
| Pool.AnnounceKeeps | xz/pool.go:128-134 | Announcing the awaited index wakes all sleeping writers, so the one that bears it cannot stay asleep. |
| Pool.TakeIdxKeeps | xz/pool.go:128-153 | getReader of a given pipe, by a single reader, keeps conservation and both wakeup invariants. |
| Pool.RestoreServesWriters | xz/pool.go:174-181 | One Signal per freed pipe loses no writer; dropping a pipe makes no room. |
| Pool.OneWriterPerPipe | xz/pool.go:174-181 | A freed pipe wakes one writer, if any sleeps, and no more; it is kept exactly if there are no more pipes than the capacity allows. |
| Pool.SetCapacityKeeps | xz/pool.go:183-189 | Changing the capacity loses no wakeup, because it wakes all writers. |
| Pool.CloseKeeps | xz/pool.go:210-216 | After close nobody sleeps in the pool. |
| PipePools.PipePool.GetWriterStep | xz/pool.go:75-113 | getWriter as it runs on the maps, for any index: outcome and new pool are those of the step on indices; the pipe handed out is a free one (with its storage if that is large enough) or a new one, empty, open, under the new index, and is filed as ready. A negative index panics before anything has changed, a duplicate one after a pipe has been taken. |
| PipePools.PipePool.TakeAnyStep | xz/pool.go:123-154 | getReader(-1) on the maps: the pipe of some ready index becomes active, the caller sleeps, or nil is returned. |
| PipePools.PipePool.TakeIdxStep | xz/pool.go:123-154 | getReader(idx) on the maps: panics exactly if an index is awaited already; otherwise announces, and returns that very pipe, nil, or sleeps. |
| PipePools.PipePool.Restore | xz/pool.go:167-181 | restore panics exactly if the pipe is nil or no active pipe has its index; else that entry goes, the pipe is closed, and it is filed as free under its index or dropped. |
| PipePools.PipePool.SetCapacity | xz/pool.go:183-189 | Sets the capacity, wakes the writers, leaves the pipes alone. |
| PipePools.PipePool.Close | xz/pool.go:210-216 | Closes the pool, wakes everybody, leaves the pipes alone. |
| PipePools.PipePool.GetStats | xz/pool.go:191-195 | The two counters are the numbers of goroutines that wait in getWriter and in getReader. |
| PipePools.PipePool.Pop | xz/pool.go:26-32 | pop takes some pipe out of a set and leaves the others; nil for an empty set. |
| Chunks.SplitExact | xz/writer.go:142-159 | There is exactly one way to cut data into non-empty chunks of which all but the last have full size. |
| Sync.SyncWriter.Write | xz/writer.go:135-180 | Synchronous Write: takes all the data or reports the underlying writer's failure; the count is that of the bytes accepted, which after a failure are full chunks, each with its record; at all times a prefix of the file has been written; succeeds if the underlying writer has room; ErrClosedPipe after Close. |
| Sync.SyncWriter.BlockEncodeSync | xz/writer.go:340-351 | One chunk is encoded, its record appended, its block written, and both buffers are emptied. |
| Sync.SyncWriter.Close | xz/writer.go:182-224 | Close flushes the last chunk and writes index and footer. Unless the underlying writer fails, it has received the reference file and the index holds one record per chunk; the error then is that of the footer, exactly if the index is too large for it, after the index has been written. A second Close does nothing. |
| Sync.BlockEncode | xz/writer.go:355-394 | blockEncode leaves exactly the reference block in the output pipe and returns its sizes, by either branch. |
| Sync.Process | xz/writer.go:367-377 | A short write is reported by the output pipe, in the first or in the second call, exactly if header, data, padding and check do not fit it; else they are in it. |
| Sync.LinePipe.Write | xz/writer.go:151-155 | The assumed contract of a linear pipe: it takes what fits, and reports a short write when that is not all. |
| Encoder.NewIsValid | xz/writer.go:59-72 | With any chunk size that is not negative, exactly the checks 0, 1, 4 and 10 give a Writer; chunk sizes from 64 KiB to 1 GiB are kept and others moved into that range. |
| Encoder.LiteralFits | xz/literal.go:41-61 | The literal block of any chunk up to the chunk size fits the output buffer, and that of a full chunk fills it. |
| Encoder.NoBlockIsLonger | xz/literal.go:12-18 | No block is longer than the literal block of a full chunk, which is longer than the chunk by three bytes per 64 KiB and at most 64; a chunk is compressed if and only if its block then is no longer than that. |
| Encoder.ReservedSuffices | xz/writer.go:335-364 | The reserved header space holds the final header for all sizes within the bounds, although the bounds are passed in the opposite order to the parameter names; it is as large as the largest sizes need. |
| Encoder.BlockMatchesRecord | xz/writer.go:353-394 | Of every block, by either branch: its length is the recorded unpadded size rounded up to four, it fits the buffer, the uncompressed size is the chunk's, and the record is valid. |
| Encoder.BlockAnatomy | xz/writer.go:353-394 | Of every block, by either branch, read from its own first byte and header: the recorded unpadded size is header, compressed data and checksum without the padding; fewer than four bytes of padding, all zero, make the block a multiple of four; the last 4, 8 or 32 bytes are CRC32, CRC64 or SHA-256 of the chunk for checks 1, 4 and 10. |
| Encoder.HeaderTellsSizes | xz/writer.go:380-391 | In front of a block of either kind stands a header that decodes to the sizes of the data behind it: the compressed chunk follows it, or stored data that decodes to the chunk. |
| Encoder.FallbackNeedsWholeChunk | xz/writer.go:380-383 | A fallback on the first k bytes of a chunk gives the bytes of the chunk's literal block if and only if k is the whole chunk. |
| Literal.TotalSizeMono | xz/literal.go:41-61 | literalBlockSize is monotone, through variable-length sizes, ceiling division and rounding. |
| Literal.StoredRoundTrip | xz/literal.go:78-96 | Decoding stored chunks gives the data back, for every length, and ends exactly at the end marker. |
| Literal.StoredSize | xz/literal.go:41-46 | The chunk loop writes as many bytes as the ceiling division says. |
| Literal.StoredInNumbers | xz/literal.go:78-96 | Up to 65536 bytes are stored behind 1 and their number less one in two bytes, and the end is 0. |
| Literal.MoreInNumbers | xz/literal.go:78-96 | Of more bytes the first 65536 are stored behind 1, 255, 255, and the rest in the same way. |
| Literal.BlockRoundTrip | xz/literal.go:63-121 | A reader of a literal block finds both sizes in the header and the data behind it. |
| Literal.LiteralBlockEncode | xz/literal.go:65-121 | The method fills the output with the literal block, touches nothing behind it, returns its length and padding; exactly the checks 0, 1, 4 and 10 are accepted, and for others nothing is written. |
| Format.HeaderInverse | lib/flags.go:31-37 | Decoding a stream header gives a check if and only if it is the encoding of that check. |
| Format.FooterInverse | lib/flags.go:39-45 | Decoding a footer gives check and backward size if and only if it is their encoding. |
| Format.IndexInverse | lib/index.go:31-48 | The index decoder gives records if and only if they are valid and the bytes are their encoding. |
| Format.BlockHeaderInverse | lib/block.go:59-73 | Decoding a block header gives two sizes and a dictionary if and only if it is their encoding, with its size, flags, filter, zeros and CRC32, whatever space was reserved for it. |
| KnownFiles.VliInDigits | lib/index.go:31-48 | A variable-length integer has seven bits of the number in each byte, the low ones first, and no superfluous byte. |
| KnownFiles.HeaderInNumbers | lib/flags.go:31-45 | Stream header, and the footer behind the smallest and the largest index, byte by byte. |
| KnownFiles.BlockHeaderInNumbers | lib/block.go:59-73 | Block headers of twelve bytes and, with four to spare, of sixteen. |
| KnownFiles.IndexInNumbers | lib/index.go:31-48 | Indices of one and of two blocks. |
| KnownFiles.RecordsInNumbers | lib/index.go:31-48 | An encoded index decodes to its records if and only if all their sizes are within the limits of the format. |
| KnownFiles.EmptyFile | xz/writer.go:187-224 | The file that the Writer makes of no data, byte by byte, for any check. |
| KnownFiles.OneByteFile | xz/writer.go:187-224 | The file that the Writer makes of one byte that does not compress, byte by byte. |
| IndexWalk.WalkInvertsLayout | xz/index.go:12-42 | For arbitrary bytes: the walk from pos returns these streams if and only if what lies before pos consists of them, one or more or none, each with zero padding in words of four; outside the file it fails, at 0 it finds nothing. |
| IndexWalk.WalkConcatenates | xz/index.go:16-23 | Walking a concatenation of files gives their indices one after the other. |
| IndexWalk.DecodeIndex | xz/index.go:12-25 | The loop, which appends what it has found to the index of each earlier stream, ends on arbitrary bytes and computes the recursive walk. |
| IndexWalk.PrevStreamIndex | xz/index.go:27-42 | One step of the walk as it runs, with the loops for padding and index in it, computes the step of the recursive walk. |
| IndexWalk.UnrollPadding | xz/index.go:44-56 | The padding loop ends on arbitrary bytes and computes the recursive scan. |
| KnownFiles.ZeroWordWalks | xz/index.go:44-56 | Behind any written file the walk skips four bytes that are zero, and finds the stream. |
| IndexWalk.ReadIndex | xz/index.go:65-82 | unrollIndex as it runs, through the coding loop, accepts what Process lets pass under either reading of errs.Panic, and then only a section that is an index from end to end. |
| IndexWalk.DecodeSection | xz/index.go:74-80 | On any section Process returns something else than nil; on an index it returns the end of the stream with everything eaten, whatever the decoder and the reads do. |
| IndexWalk.AsWrittenRejects | xz/index.go:76-77 | As Process never returns nil here, taken literally the walk succeeds exactly on the empty file. |
| WriterFile.FileWalks | xz/writer.go:215-224 | The walk over a finished file, with padding behind it or without, finds one stream with the records that were appended: block sizes, backward size and positions agree. |
| WriterFile.PiecesWalk | xz/index.go:12-42 | The walk over any number of written files, concatenated with padding between them, finds the streams, records and paddings of all of them in order. |
| WriterFile.AsyncFileWalks | xz/writer.go:187-224 | The same for whatever the asynchronous Writer has sent when Close returns. |
| WriterFile.BlockLands | xz/writer.go:321-323 | Block j begins at 12 plus the rounded unpadded sizes of the records before it, and its bytes there are the encoding of chunk j. |
| WriterFile.SmallDataFits | xz/writer.go:219-221 | The footer can hold the size of the index of any data up to 32 TiB. |
| WriterFile.LargeDataDoesNotFit | xz/writer.go:219-221 | The footer cannot hold the size of the index of data of more than 2^33 chunks. |
| WriterFile.WorkersDoNotShow | xz/writer.go:90-112 | Two finished runs over the same data have sent the same bytes and hold the same index, with any numbers of workers, divisions over Write calls and schedules; an unfinished run has sent a part of that. |
| Coding.Coder.Code | lib/base.go:62-73 | The assumed contract of lzma_code: it eats and makes what it likes, gets nowhere only for want of room or input, reports BUF_ERROR for the second such call in a row, and the end only when all is eaten and made. |
| Coding.Ring.Push | lib/base.go:135-136 | The assumed contract of a ring pipe's first write slice. |
| Coding.Ring.ReadMark | lib/base.go:132-135 | The assumed contract of a ring pipe's read side. |
| Process.CodingStream.Process | lib/base.go:103-155 | Nothing is lost or reordered: input eaten, buffered and still in the source stays the same string, bytes made are bytes delivered plus bytes buffered. What is returned is decided: a short write while output is pending, which happens only with a full destination; else what the coder has told in its last call, an error for corrupt input and the end only when all has been delivered; else the end of the source, with both buffers empty. The loop ends. With a destination and a source that is not truncated, BUF_ERROR comes out if and only if the coder had starved before the call, gets nowhere again, and the destination takes all that is buffered; once the coder has eaten its input that is decided by the state before the call. The coder starves if and only if the destination has no room, the buffer is full and the coder does not eat. Once the last byte has been eaten, at most two buffers of output are still made. |
| Process.CodingStream.Lap | lib/base.go:122-154 | The same for one turn of the loop with its switch, and that it makes progress or stops. |
| Process.CodingStream.Step | lib/base.go:130-141 | The BUF_ERROR that the loop takes back never hides a second call in a row that gets nowhere. |
| Process.Pump | lib/base.go:103-155 | Calling Process with destinations of any sizes until it returns something else than a short write delivers a prefix of the content, as long as the sizes together, and all of it once they suffice, as one call with a large destination does. With non-zero sizes the error for corrupt input comes out if and only if the coder stops at a corrupt place, behind all that has been made. The end of the source comes out only if the source does not go on beyond the coder's end; BUF_ERROR only after a destination of size zero, or at the end of a truncated source. |
| Endings.ZeroSizesStarve | lib/base.go:131-151 | For every stream whose coder has eaten its input and has more to give than the buffer holds: zero-size calls make the next call fail with BUF_ERROR and output missing. |
| Endings.ZeroSizesFail | lib/base.go:131-151 | One such input, with the buffer size of the source. |
| Endings.EofLosesOutput | lib/base.go:123-153 | For every coder, and every source that ends with the coder's input when its last byte brings more than two buffers of output: one call with a large destination reports the end of the source with output missing. |
| Endings.FloodIsLost | lib/base.go:123-153 | One such input, a source of one byte. |
| Endings.EveryExactSourceCanEndEarly | lib/base.go:149-153 | For every codec and every non-empty input that ends where the coder ends there are a coder and a reader, within their contracts, with which Process reports the end of the source instead of the end of the stream: only a source that goes on is safe for all (Pump). |
| Endings.GoOn | lib/base.go:103-155 | A caller that goes on after the end of the source gets all output and then the end, within as many calls as there are bytes and two. |
| Endings.NilSourceSpins | lib/base.go:122-154 | With no source and a coder that needs input, once the coder has got nowhere, a turn of the loop changes nothing and does not return. |
| Endings.NilDestinationSpins | lib/base.go:122-154 | The same with no destination and more output than the buffer holds. |
| Readers.SyncReader.Read | xz/reader.go:97-172 | Over any sequence of valid streams with padding, from which any number of bytes may have been cut: what is returned is the next part of the blocks' contents; no error means that the slice is full and more is to come. When nothing has been cut, end of file means that nothing is left, there is no format error, and a coder error comes only after a zero-size slice has made the coder starve. When the source has been cut, the place decides (ReadMany). |
| Readers.ReadMany | xz/reader.go:97-172 | Reads of any non-zero sizes over any sequence of valid streams, each followed by padding in words of four bytes, return the concatenated contents of all blocks and then end of file. When the end of the sequence has been cut off, anywhere, they return a part of it: then a format error if and only if less is left than the next header, footer or word of padding needs, which never happens with a cut inside the data of a block; else nothing is left, and the error is end of file, or that of a coder inside a block. |
| Readers.SyncReader.Advance | xz/reader.go:111-169 | One turn of the state machine: delivered plus remaining stays the same, and an item of the file is consumed or a block goes on; with a cut source, the error is that of the place where it is cut. |
| Readers.SyncReader.TakeHeader | xz/reader.go:100-106 | On any source: the next twelve bytes are taken if and only if they are the header of some check; end of file only where a stream has been read before. |
| Readers.SyncReader.TakeBlockHeader | xz/reader.go:114-119 | On any source: as many bytes as the first byte says are taken if they are there, and accepted if and only if liblzma accepts them. |
| Readers.SyncReader.TakeBlock | xz/reader.go:126-139 | On any source: without an error the block has come to its end and all of it has been delivered; corrupt data is an error; end of file only when nothing is left. |
| Readers.SyncReader.TakeIndex | xz/reader.go:139-150 | On any source: the index decoder eats the index and nothing behind it, or reports an error exactly if it is corrupt, or the source has ended. |
| Readers.SyncReader.TakeFooter | xz/reader.go:155-161 | On any source: the next twelve bytes are accepted if and only if they are the footer of the check in the header and of the size of the index that has been read. |
| Readers.SyncReader.DoPadding | xz/reader.go:162-170 | All padding is skipped, wherever the ring buffer wraps; end of file only when nothing is left, a format error exactly when less than a word is. |
| Readers.SyncReader.PaddingWord | xz/reader.go:162-166 | From a buffer position that is a multiple of four, a word is skipped if and only if it is zero. |
| Readers.SyncReader.ReadFull | xz/reader.go:230-251 | Returns at least the bytes asked for, in order, when there are as many; end of file exactly when nothing is left and that is allowed; more than was asked for exactly when the bytes wrap around. |
| Readers.BlockOutcome | xz/reader.go:126-139 | When Process returns on a block that other bytes follow, some of which may have been cut off, the coder has eaten no byte beyond the block, and at the end exactly the block; it has not found it corrupt. |
| ReadBack.FileIsLegal | xz/writer.go:187-224 | The Writer's file, with padding and further streams behind it, is what the Reader expects, item by item, and its text is the data. |
| ReadBack.PiecesAreLegal | xz/reader.go:97-172 | Concatenated files with padding between them are one sequence of streams as the Reader expects it, and its text is all the data in order. |
| ReadBack.WriteThenRead | xz/reader.go:97-172 | What the asynchronous Writer has sent when Close returns, read by the synchronous Reader in slices of any non-zero sizes, is what was given to Write. |
| ReadBack.ReadPieces | xz/reader.go:97-172 | Any number of written files, concatenated with padding between them, read in slices of any non-zero sizes, give all the data in order. |
| ReadBack.ReadCut | xz/reader.go:97-172 | Any number of written files with padding between them, cut anywhere, read as a part of the data in slices of any non-zero sizes, without a format error if the cut is inside the data of a block. |
| StoredDecoder.StoredDecodes | xz/literal.go:63-121 | The decoders that the round trip assumes exist when nothing can be compressed: the parsers of literal blocks and of the index are such decoders. |
| Frames.IndexPrefixFree | xz/reader.go:146-153 | No index is the beginning of another, so its decoder knows where it ends. |

## Left out

- Streamed mode (one chunk, ring pipes, ProcessPipe): no parallelism, and it rests on code that is not part of this model.
- The asynchronous Reader and the SeekReader's reads: stubs in the source. interrupt, finalizers and dynamic scaling: not used by the protocol.
- terminate, and what Write and Close return after the underlying writer has failed: a run ends with the failure.
- Values of compression and checksums, errors of liblzma other than a short write, memory limits, and the content of liblzma's block header checks.
- The limits that lzma_index_append and lzma_index_cat put on sums of sizes; the size of the index is checked for the footer only, and assumed small (`WriterFile.IndexFits`) where a whole file is walked or read.
- lzma_code with LZMA_FINISH is treated like LZMA_RUN: its refusal of input that grows between calls is not modelled.
- Source readers that return no bytes and no error, readers that fail otherwise than by ending, and ReaderAt implementations that report EOF together with the last bytes of the file.
- PipePools.PipePool.Restore: keeps `Valid` for a pipe that is not queued at the same time.
- Pool.GetWriterServesWriters: a goroutine is named by the index it asks for, so that a second one that waits under the same index is not modelled.
- PipePools.PipePool.GetWriterStep: the goroutine that asks does not sleep already under its index, for the same reason.
- Process.CodingStream.Process: for a nil source the coder must have ended, for a nil destination it must make nothing; otherwise the loop does not end (`Endings.NilSourceSpins`, `Endings.NilDestinationSpins`).
- Format.BlockHeaderInverse: for headers with both sizes and the LZMA2 filter alone, as the Writer's are; the bounds that liblzma puts on the sizes and on the dictionary byte beyond their encoding are left out.
- Pool.TakeIdxKeeps: holds for a single reader that asks for given pipes; a pool with readers of both kinds is not modelled.
- Readers.SyncReader.Read: sources are well-formed streams or the first part of them; what each step does on a corrupt one is said (`TakeHeader`, `TakeBlockHeader`, `TakeBlock`, `TakeIndex`, `TakeFooter`, `PaddingWord`), but not for whole runs. After an error nothing is promised for later calls, except after the end of a file that is not cut.
- Sync.SyncWriter.Write: after a failure of the underlying writer nothing is promised for later calls.
- The order of the two steps that end Close's last write and the return of its error is not separated: UserFinish writes index and footer in one step.
- Integer widths: sizes are unbounded, except where a field of the format or the 16-bit chunk length limits them; negative arguments are not used.
- NewWriter's filters and dictionary size, and numbers of workers that are not positive.
