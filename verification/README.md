# sevenz-turbo in Dafny

A model of the parts of the 7z reader and writer that carry state or undo each
other, with proofs of what they promise. `dafny verify dfyconfig.toml` checks
the whole project.

Code that works step by step is modelled by classes and methods with loops;
each is proved against functions on values, and the properties are lemmas about
those functions or invariants of the classes. Bytes and machine words are
bounded integers, with wrap-around written out where the source has it.

| files | what they model |
|---|---|
| `Bcj2Spec`, `Bcj2Sync`, `Bcj2Decode`, `Bcj2`, `Bcj2Encode` | the BCJ2 decoder: a byte-at-a-time machine over the four whole streams, the buffered decoder and reader that stop and resume anywhere and still follow it, and a reference encoder that they undo |
| `Numbers`, `Wire`, `Bits`, `BitSets` | the variable-length number, words, and bit vectors, printed and parsed |
| `HeaderFormat`, `PackFormat`, `UnpackFormat`, `EncoderOptions`, `SubStreams`, `SubStreamsOut`, `FilesFormat`, `FilesBack`, `Headers` | the header as printing and parsing functions, and that parsing undoes printing |
| `Layouts`, `HeaderLimits`, `KnownHeader` | blocks and tables laid out in all the forms the format has and read back, what no header that is read can exceed, and one header byte by byte |
| `UnpackIo`, `SubStreamsIo`, `FilesIo`, `HeaderIo` | the printing and parsing methods, proved equal to those functions |
| `Blocks`, `CoderGraph`, `CoderWalk`, `CoderTree` | the coder graph: the depth-first check, the chain iterator, the tree of decoders |
| `StreamMaps`, `Extraction` | the map from entries to blocks and sub-streams, and the loops that hand every entry out |
| `Cbc`, `AesDecoder`, `AesEncoder`, `AesKey` | cipher block chaining (section 6.2 of NIST SP 800-38A), the resumable decoder, the padding encoder, the key derivation with its budget and one-entry cache |
| `Bridge` | the encoder thread: writer and worker as interleaved steps over a bounded and an unbounded channel |
| `Lzma2Reader` | the reader that feeds whole runs to a parallel LZMA2 decoder out of a window |
| `Bcj`, `Digest`, `Memory`, `Sources`, `Common` | the branch-converter window, the four-lane digest, dictionary and memory arithmetic, and what they share |

## Where the code differs from what one might expect

Each of these is stated exactly, by an if-and-only-if or by the concrete input
that shows it:

- Reaching the declared BCJ2 size is accepted at a proper end of the range
  coder, and also when the last decision asks for an address of whose word only
  one to three bytes are there (`bcj2.rs:163-168`): `Bcj2.Bcj2Reader.Read`, and
  with concrete streams `Bcj2.ShortWordPasses` and `Bcj2.ReadShortWord`.
- The cycle check covers only what the block's output depends on:
  `CoderGraph.ValidateCoderGraph`, `CoderWalk.CycleElsewhere`.
- The checksums of packed streams come back just when they are all zero or all
  nonzero: `PackFormat.PackInfoIff`.
- Empty-file and anti-item vectors end with their last member, and come back
  just when that fills the bytes the reader takes: `FilesBack.TrimmedIff`.
- Without the size record, sub-stream sizes are where they are looked for just
  when a block of several streams is the last that has any:
  `SubStreams.MissingSizesIff`.
- A block of one stream may have its checksum in the record of the blocks. It
  counts only where the sub-streams have a record of checksums too; without one
  the entry is not verified (`reader.rs:1210-1237`): `SubStreams.DigestsMean`,
  `SubStreams.NoDigests`.
- Every entry is handed out exactly once just when no entry without a stream
  lies among those of a block: `Extraction.EachEntry`.
- Nothing is skipped of an entry that a callback reads only in part: the entries
  behind it in the block are handed shifted bytes, and with checksums verified
  an undamaged archive is found damaged (`reader.rs:2678-2740`). An entry gets
  its own interval just when all before it in its block are read to their ends:
  `Extraction.OwnIff`, `Extraction.ShiftedEntry`.
- The properties of a coder come back just when there are fewer than 128 of
  them, because their length is written as one byte (`unpack_info.rs:177`) and
  read as a number: `UnpackFormat.PropsIff`. No options of this writer give more
  than 34 (`encoder.rs:404-496`), so that none of its own headers is concerned:
  `EncoderOptions.PropertiesOf`, `EncoderOptions.OptionsBack`.

Two more, which no lemma is about:

- The comment at `lzma_turbo.rs:497` speaks of 256 MiB for each thread; the
  constant at line 162 is 512 MiB, which is what the model has.
- The second error of the BCJ2 reader (`bcj2.rs:141-143`) cannot arise, as the
  flag it looks at is never cleared; the model leaves the flag out.

## Model

| member | source | states |
|---|---|---|
| `Bcj2Spec.OutputIsPrefix` | src/codec/filter/bcj2/decode.rs:45-258 | wherever a run of the byte-at-a-time machine stops, its output is a prefix of the one decoding of the four streams, and the whole of it when no step is possible |
| `Bcj2Spec.RangeCoderInvariant` | src/codec/filter/bcj2/decode.rs:84-92 | in every state reached after the start bytes, on any input: all probabilities in 31..2017, code below range, range at least 253952; one byte shifted in multiplies the range by 256 without wrap-around and makes it at least 2^24 |
| `Bcj2Spec.ShiftRestores` | src/codec/filter/bcj2/decode.rs:84-92 | one byte always suffices: a range of at least 253952 times 256 is at least 2^24 and below 2^32 |
| `Bcj2Spec.StartedForGood` | src/codec/filter/bcj2/decode.rs:47-67 | once started, the machine neither starts again nor fails, the code stays below the range and the range at least 253952, so the branch for a range of 5 or less is not entered again |
| `Bcj2Spec.AddressIsRelative` | src/codec/filter/bcj2/decode.rs:211-248 | the four bytes output for a fetched word, read low byte first and made absolute again by the position behind them (mod 2^32), are the stored big-endian word |
| `Bcj2Spec.AddressComesFrom` | src/codec/filter/bcj2/decode.rs:198-248 | in every reachable state, on any streams: an address that goes behind a byte 0xE8 of the output is the next word of the second stream, behind any other byte the next of the third, no other position moves, and the address is relative to the length of the output |
| `Bcj2Spec.RunLater` | src/codec/filter/bcj2/decode.rs:80-249 | running on only appends: output and stream positions of a later state extend those of an earlier one |
| `Bcj2Sync.PlainIsIdentity` | src/codec/filter/bcj2/decode.rs:114-157 | a main stream without markers, behind valid start bytes, decodes to itself |
| `Bcj2Sync.PlainRun` | src/codec/filter/bcj2/decode.rs:117-142 | a run of main bytes without a marker, taken at once, is as many single steps of the machine |
| `Bcj2Sync.JudgedAfter` | src/codec/filter/bcj2/decode.rs:159-194 | plain bytes and the marker behind them: the bound leaves both halves of the range at least 253952, and the registers the source computes are those of the single steps |
| `Bcj2Sync.ShiftedEarly` | src/codec/filter/bcj2/decode.rs:251-255 | a range-coder byte loaded on the way out, before the step that needs it, keeps registers and machine in step |
| `Bcj2Sync.FetchAhead` | src/codec/filter/bcj2/decode.rs:198-216 | an address is fetched the same whether or not that early byte was loaded |
| `Bcj2Sync.AfterFetch` | src/codec/filter/bcj2/decode.rs:211-248 | one address word taken and any part of it written: the registers stand for the machine with the rest of the word pending |
| `Bcj2Decode.Scan` | src/codec/filter/bcj2/decode.rs:114-142 | copies main bytes up to the limit or the first marker, and nothing before it is a marker |
| `Bcj2Decode.Bcj2Decoder.Begin` | src/codec/filter/bcj2/decode.rs:47-67 | the five start bytes, at any interruption: malformed only if the machine fails, otherwise in step with it |
| `Bcj2Decode.Bcj2Decoder.Normalise` | src/codec/filter/bcj2/decode.rs:81-92 | before any main byte the range is made large enough, or the decoder stops because the range-coder window is empty |
| `Bcj2Decode.Bcj2Decoder.Judge` | src/codec/filter/bcj2/decode.rs:159-194 | passes a marker, and goes on to an address exactly when the machine does |
| `Bcj2Decode.Bcj2Decoder.TakeMain` | src/codec/filter/bcj2/decode.rs:94-195 | copies main bytes to a marker or to the end of a window or the destination, in step with the machine |
| `Bcj2Decode.Bcj2Decoder.FetchWord` | src/codec/filter/bcj2/decode.rs:198-248 | converts one address word and keeps what the destination has no room for |
| `Bcj2Decode.Bcj2Decoder.Flush` | src/codec/filter/bcj2/decode.rs:68-78 | address bytes kept from an earlier call are written first, as many as fit |
| `Bcj2Decode.Bcj2Decoder.LoadEarly` | src/codec/filter/bcj2/decode.rs:251-255 | the byte loaded on the way out changes neither what was output nor what comes next |
| `Bcj2Decode.Bcj2Decoder.Round` | src/codec/filter/bcj2/decode.rs:80-249 | one turn of the decoding loop: why it leaves, what it leaves behind |
| `Bcj2Decode.Bcj2Decoder.Resume` | src/codec/filter/bcj2/decode.rs:46-78 | picks up where an earlier call stopped |
| `Bcj2Decode.Bcj2Decoder.Decode` | src/codec/filter/bcj2/decode.rs:45-258 | whatever the windows and the destination: the destination gets the next bytes of the machine; it stops only for a full destination, or for the window of the one stream the machine wants next; false only if the machine fails |
| `Bcj2.Bcj2Reader.DeliversPrefix` | src/codec/filter/bcj2.rs:101-187 | in every state of a reader, what it has returned is a prefix of the one decoding, and all of it when the machine is starved |
| `Bcj2.Bcj2Reader.ReadSome` | src/codec/filter/bcj2.rs:145-157 | reads until a region holds something, for an address stream a whole word, or the stream ends |
| `Bcj2.Bcj2Reader.Collect` | src/codec/filter/bcj2.rs:130-157 | the bytes of an incomplete word move to the front and more is read behind them |
| `Bcj2.Bcj2Reader.Refill` | src/codec/filter/bcj2.rs:130-174 | the window refilled is the next part of its stream; dry and short are told apart exactly by whether part of a word is there |
| `Bcj2.Bcj2Reader.CheckEnd` | src/codec/filter/bcj2.rs:177-184 | with nothing left of the declared size: passes just when the range coder is at its end |
| `Bcj2.Bcj2Reader.FillUp` | src/codec/filter/bcj2.rs:110-175 | the decoding loop of one read: the buffer gets the next bytes of the machine, and it leaves for a full buffer, the end of the wanted stream, a word cut short, a failed inner read or a malformed stream; a word cut short is told exactly, the others have their cause |
| `Bcj2.Bcj2Reader.Read` | src/codec/filter/bcj2.rs:102-186 | a successful read returns the next piece of the one decoding, short only when the input is used up; reaching the declared size succeeds at a proper end or at a word cut short, and the end check fails only when neither is the case; a word cut short is an error only when nothing was decoded in the call; each other error has its cause |
| `Bcj2.ShortWordPasses` | src/codec/filter/bcj2.rs:163-172 | concrete streams for which the declared size is reached at a word cut short with a code that is not zero: the end check is then passed over |
| `Bcj2.ShortWordStates` | src/codec/filter/bcj2.rs:163-172 | on those streams every state of the machine has put out nothing and can go on, or is the last one |
| `Bcj2.ReadShortWord` | src/codec/filter/bcj2.rs:102-186 | a read of the declared size there returns its one byte, unless an inner read fails |
| `Bcj2.Bcj2Reader.ReadAll` | src/codec/filter/bcj2.rs:102-186 | any sequence of buffer sizes: the bytes returned in all are a prefix of the one decoding |
| `Bcj2.ReadRun` | src/codec/filter/bcj2.rs:77-186 | a whole decode from a new reader: a prefix of the decoding, complete unless the sizes asked for or the declared size end first |
| `Bcj2Encode.RoundTrip` | src/codec/filter/bcj2/decode.rs:45-258 | for all bytes and every choice of addresses to convert: what a reference encoder with its own markers, slots, streams and range coder makes of them decodes to them |
| `Bcj2Encode.EncodedEnds` | src/codec/filter/bcj2/decode.rs:45-258 | the decoder then stands at the end of all four streams, with the range coder at its end and a code of zero |
| `Bcj2Encode.Follow` | src/codec/filter/bcj2/decode.rs:80-249 | step by step: where the encoder stands after any part of the bytes, the decoder comes to the state that belongs to it |
| `Bcj2Encode.EncodeBeyond` | src/codec/filter/bcj2/decode.rs:159-194 | all that is encoded later stays within the range, so that the decoder's code tells every decision |
| `Bcj2Encode.ReadPiece` | src/codec/filter/bcj2.rs:102-186 | a reader over such streams returns at every read the next bytes, as many as there is room for, and fails only when an inner read does: the end check passes just at the end |
| `Bcj2Encode.EncodeThenRead` | src/codec/filter/bcj2.rs:77-186 | encoded and then read with any sequence of buffer sizes, the bytes come back unless an inner read fails |
| `Numbers.NumberRoundTrip` | src/writer.rs:648-668 | for all 64-bit values and anything behind: the number read is the one written, and exactly its bytes are used |
| `Numbers.NumberKnown` | src/writer.rs:648-668 | numbers of one to three bytes as they are in the file |
| `Numbers.BytesAt` | src/writer.rs:648-668 | the bytes of a number go with the lowest first: byte i counts for 256 to the power of i |
| `Numbers.ReadRest` | src/reader.rs:1529-1542 | from each announced byte on, what is read is the value without its lower bytes |
| `Wire.Cursor.Number` | src/reader.rs:1529-1542 | the mask loop reads what the number format says, or fails at the end of the data |
| `Wire.Buffer.Number` | src/writer.rs:648-668 | the shifting loop writes the number format: length by leading ones, low bytes first |
| `Wire.NumbersRoundTrip` | src/writer.rs:648-668 | a list of numbers comes back |
| `Wire.WhereRoundTrip` | src/reader.rs:1048-1055 | a word for each set flag, zero elsewhere, comes back |
| `Wire.Cursor.Where` | src/reader.rs:1048-1055 | reads a word for each set flag, in order |
| `Bits.BitsRoundTrip` | src/bitset.rs:145-164 | a bit vector of any length comes back with anything behind it |
| `Bits.BitsPaddedIff` | src/reader.rs:1557-1572 | a vector written for fewer flags is read back padded, for every tail, exactly when both lengths take the same number of bytes |
| `BitSets.BitSet.Flags` | src/bitset.rs:39-50 | the flags kept are membership, index by index |
| `BitSets.BitSet.Grow` | src/bitset.rs:101-114 | growing keeps the members |
| `BitSets.BitSet.Insert` | src/bitset.rs:55-68 | adds exactly the value, growing the set to hold it, and tells whether it was new |
| `BitSets.BitSet.Remove` | src/bitset.rs:73-82 | removes exactly the value and tells whether it was there |
| `BitSets.WriteBitSet` | src/bitset.rs:145-164 | the flags from the top of each byte down, the last byte filled with zeros |
| `BitSets.ReadBitSet` | src/reader.rs:1557-1572 | the mask loop reads the vector that the byte form stands for |
| `BitSets.ReadAllOrBitSet` | src/reader.rs:1544-1555 | all flags set, or a vector |
| `CoderGraph.ValidateCoderGraph` | src/reader.rs:1381-1470 | with bind-pair indices in range: accepts exactly the wirings in which bind pairs are injective on both sides, each input is bound or packed and not both, one output is unbound, and no cycle lies behind it; reports a cycle exactly when only that is wrong |
| `CoderGraph.CheckWiring` | src/reader.rs:1382-1443 | the half without the walk: the unbound output, or an error when there is no such wiring |
| `CoderGraph.MarkPairs` | src/reader.rs:1387-1395 | accepts the bind pairs exactly when no input and no output is bound twice |
| `CoderGraph.MarkPacked` | src/reader.rs:1397-1406 | accepts the packed inputs exactly when each is in range, unbound and listed once |
| `CoderGraph.CheckInputs` | src/reader.rs:1397-1409 | every input is bound or packed, and none is both |
| `CoderGraph.ClearFlags` | src/reader.rs:1411-1416 | tells whether exactly one output is unbound, and which |
| `CoderGraph.WalkBack` | src/reader.rs:1436-1469 | the explicit-stack walk ends, and finds a cycle exactly when one is reachable backwards from the root |
| `CoderGraph.MeetIsCycle` | src/reader.rs:1446-1452 | a coder met while it is on the path closes a cycle behind the root |
| `CoderGraph.DoneIsAcyclic` | src/reader.rs:1445-1469 | when the root is done there is no cycle behind it |
| `CoderGraph.Leave` | src/reader.rs:1457-1466 | a coder all of whose inputs are walked is behind nothing that is not done |
| `CoderWalk.ReaderInjective` | src/block.rs:22-28 | in a wired block of one-in/one-out coders no two coders are read by the same one |
| `CoderWalk.ChainIsShort` | src/block.rs:123-160 | a chain from the packed stream has at most as many coders as the block, so the guard is not needed |
| `CoderWalk.OrderedCoderIter.Next` | src/block.rs:137-159 | one step of the iterator, and its guard |
| `CoderWalk.OrderedCoders` | src/block.rs:123-160 | on a validated block of one-in/one-out coders: a chain from the packed stream to the coder of the output, no coder twice, ended by the missing reader and never by the guard |
| `CoderWalk.CycleElsewhere` | src/reader.rs:1440-1469 | a concrete block with a cycle that its output does not depend on: it is accepted |
| `CoderTree.PathIsShort` | src/reader.rs:2202-2279 | a path back from the output of a validated block never meets a coder twice |
| `CoderTree.OnePath` | src/reader.rs:2202-2279 | there is only one path from the output back to any coder |
| `CoderTree.NoGuard` | src/reader.rs:2157-2233 | on a validated block of single-output coders neither the depth guard nor a lookup fails |
| `CoderTree.Built` | src/reader.rs:2202-2279 | the tree that is built holds just the coders behind its root, each once, and each packed stream once |
| `CoderTree.TreeOfBlock` | src/reader.rs:2104-2280 | decoder construction fails only where some coder has several inputs and is not BCJ2 with four; otherwise it starts at the output, no coder is built twice, no packed stream is read twice, and every input of every coder has the stream the packed streams and bind pairs give it |
| `CoderTree.CoderFollows` | src/reader.rs:2157-2280 | whenever a tree is built, for any block: each coder has one tree for each of its inputs, in their order, and each is the packed stream of that input or the coder that is bound to it; a coder of several inputs is BCJ2 with four |
| `CoderTree.CoderAllowed` | src/reader.rs:2202-2280 | where all coders have one input or are BCJ2 with four, none is refused |
| `CoderTree.MainCoder` | src/reader.rs:2104-2124 | the first unused coder is the owner of the unbound output |
| `PackFormat.PackInfo.AddStream` | src/writer/pack_info.rs:47-51 | appends one size and one checksum |
| `PackFormat.PackInfo.WriteTo` | src/writer/pack_info.rs:11-42 | writes the packed-stream record: position, count, sizes, and the checksum table |
| `PackFormat.PackInfo.WriteTable` | src/writer/pack_info.rs:19-38 | the checksum table: values only when all are nonzero; with some zero, the vector alone |
| `PackFormat.ParsePackInfo` | src/reader.rs:1032-1064 | reads what the packed-stream record says, with its limits and terminators |
| `PackFormat.PackInfoIff` | src/writer/pack_info.rs:11-42 | the packed streams are read back, for every tail, exactly when their checksums are all zero or all nonzero |
| `PackFormat.MixedTable` | src/writer/pack_info.rs:26-38 | with a mixed table the reader takes at least four bytes that are not of the table |
| `UnpackFormat.BlockRoundTrip` | src/writer/unpack_info.rs:142-182 | the coders of a block come back as a validated chain |
| `UnpackFormat.ChainDecodable` | src/writer/unpack_info.rs:142-160 | every chain that is written passes the graph check, the last coder giving the output |
| `UnpackFormat.UnpackRoundTrip` | src/writer/unpack_info.rs:45-64 | all coder chains and all unpack sizes come back |
| `UnpackFormat.PropsIff` | src/writer/unpack_info.rs:176-179 | for every tail: the properties of a coder come back exactly when there are fewer than 128 of them, their length being written as one byte and read as a number |
| `EncoderOptions.PropertiesOf` | src/encoder.rs:404-496 | the properties printed for the options of an encoder: never more than 34 bytes |
| `EncoderOptions.OptionsBack` | src/writer/unpack_info.rs:162-181 | for every choice of options the coder comes back with its properties |
| `EncoderOptions.PrintedCoderSized` | src/container.rs:483-580 | for every options of an encoder: the reader's estimate for the coder that is printed is what those options need |
| `EncoderOptions.AesOptionsBack` | src/encoder_options.rs:555-561 | the properties of an encrypted stream are laid out as the format has them and are read back |
| `UnpackFormat.BlocksValidated` | src/reader.rs:1250-1365 | every block of a header that is read has passed the graph check |
| `UnpackFormat.UnpackSized` | src/reader.rs:1065-1136 | every block that is read has one size for each output |
| `Layouts.CoderBack` | src/reader.rs:1256-1309 | a coder laid out with any identifier of up to 15 bytes, any numbers of inputs and outputs and any properties is read back as that coder |
| `Layouts.AlternativesRefused` | src/reader.rs:1256-1306 | a coder that announces alternatives is refused |
| `Layouts.BlockBack` | src/reader.rs:1250-1365 | every validated block, with coders of several inputs and outputs, any wiring and any packed inputs, laid out field by field, is read back as that block, within the caller's limits |
| `Layouts.UnpackBack` | src/reader.rs:1065-1136 | all blocks with a size for each output and checksums for any of them are read back as they were laid out |
| `Layouts.PacksBack` | src/reader.rs:1032-1064 | packed streams with checksums for any of them, all or none are read back as they were laid out |
| `Layouts.Bcj2Record` | src/reader.rs:1256-1309 | the seven bytes of a BCJ2 coder: four inputs, one output |
| `Layouts.LayoutAllows` | src/reader.rs:1485-1524 | a block within the caller's limits never has more coders, inputs or outputs than its own bytes allow |
| `HeaderLimits.HeaderRead` | src/reader.rs:1473-1527 | whatever bytes are read as a header: entries, packed streams, blocks, coders, streams of coders, sub-streams, properties and names are all within the caller's limits, and counts within the bytes of the header |
| `KnownHeader.HeaderKnown` | src/writer.rs:422-429 | one header with every kind of record the writer has, byte by byte |
| `UnpackIo.WriteCodec` | src/writer/unpack_info.rs:162-182 | writes one coder: flags, identifier, property length in one byte, properties |
| `UnpackIo.WriteBlock` | src/writer/unpack_info.rs:142-160 | writes the coders of a block and the bind pairs of the chain |
| `UnpackIo.WriteTo` | src/writer/unpack_info.rs:45-64 | writes the blocks and their sizes |
| `UnpackIo.ParseCoder` | src/reader.rs:1257-1309 | reads one coder with the limits on streams and properties |
| `UnpackIo.ParsePairs` | src/reader.rs:1319-1334 | reads bind pairs and refuses indices out of range |
| `UnpackIo.ParsePacked` | src/reader.rs:1336-1360 | the packed inputs: the one that is unbound, or a list |
| `UnpackIo.ParseBlock` | src/reader.rs:1250-1365 | reads a block and refuses it unless its wiring can be decoded |
| `UnpackIo.ParseUnpackInfo` | src/reader.rs:1065-1136 | reads all blocks, their sizes and their checksums |
| `SubStreams.UnpackSizeOfOutput` | src/block.rs:31-41 | the size of a validated block is that of its unbound output |
| `SubStreams.SubStreamsAligned` | src/reader.rs:1138-1248 | whenever sub-stream data is read: as many sizes, flags and checksums as streams; with the size record, or with no block of several streams, each block finds its sizes at its flat index and they sum to the block |
| `SubStreams.SizesAligned` | src/reader.rs:1171-1195 | with the size record, or with at most one stream a block, sizes are aligned |
| `SubStreams.MissingSizesIff` | src/reader.rs:1171-1195 | without the size record, sizes are aligned whatever the block sizes exactly when a block of several streams is the last that has any |
| `SubStreams.AlignedIff` | src/reader.rs:939-950 | block by block and at flat indices are the same |
| `SubStreams.SpreadAt` | src/reader.rs:1218-1237 | the checksums of a block lie at the flat index of its streams: its own, or the next digests |
| `SubStreams.DigestsMean` | src/reader.rs:1210-1237 | with a record of checksums: the stream of a block of one stream with a checksum of its own gets that checksum, the others those the record lists, in order |
| `SubStreams.NoDigests` | src/reader.rs:1210-1246 | without that record no stream has a checksum, not even that of a block that has one |
| `SubStreamsOut.SubsRoundTrip` | src/writer/unpack_info.rs:66-128 | numbers, sizes and checksums of all streams come back for blocks whose stream sizes sum to the block |
| `SubStreamsOut.BlockSizesBack` | src/writer/unpack_info.rs:79-95 | the size that is left out is what remains of the block |
| `SubStreamsIo.UnpackInfo.Add` | src/writer/unpack_info.rs:11-24 | appends a block with one stream |
| `SubStreamsIo.UnpackInfo.AddMultiple` | src/writer/unpack_info.rs:26-43 | appends a block with several streams |
| `SubStreamsIo.UnpackInfo.WriteSubstreams` | src/writer/unpack_info.rs:66-128 | writes numbers, sizes and checksums of the streams |
| `SubStreamsIo.UnpackInfo.WriteFrontSizes` | src/writer/unpack_info.rs:79-95 | all sizes of a block but the last, and nothing where no block has several |
| `SubStreamsIo.ParseNumSubs` | src/reader.rs:1143-1160 | the number of streams of each block, one each without the record, under the limit on their total |
| `SubStreamsIo.ParseFlatSizes` | src/reader.rs:1162-1198 | fills the flat size list in place, never out of range, as the sizes of the blocks in order |
| `SubStreamsIo.CountDigests` | src/reader.rs:1200-1208 | counts the missing checksums; the check against the total never fails |
| `SubStreamsIo.ParseDigests` | src/reader.rs:1200-1240 | spreads the digests over the flat lists, never out of range |
| `SubStreamsIo.ParseSubStreams` | src/reader.rs:1138-1248 | reads the sub-stream record as a whole |
| `FilesBack.TrimmedIff` | src/writer.rs:553-601 | a vector written up to its last set bit is read back for all streamless entries, for every tail, exactly when both take the same number of bytes |
| `FilesBack.VectorsBack` | src/writer.rs:529-601 | the three vectors come back, the second and third for the entries the first names |
| `FilesBack.TrimmedBack` | src/reader.rs:736-755 | an empty-file or anti vector that fills its bytes comes back |
| `FilesBack.NamesBack` | src/writer.rs:603-618 | all names come back, in order |
| `FilesBack.ValidIff` | src/reader.rs:1601-1629 | a name is taken just when it is the UTF-16 of some sequence of characters |
| `FilesBack.SkipsUnknown` | src/reader.rs:852-861 | a record of an unknown number is passed over by just as many bytes as it announces |
| `FilesBack.StampsBack` | src/writer.rs:33-75 | all dates and attributes come back, for the entries that have them |
| `FilesBack.PropertiesBack` | src/writer.rs:514-527 | all records together come back |
| `FilesBack.FilesRoundTrip` | src/reader.rs:715-915 | every entry comes back, each with a stream taking the next size and checksum |
| `FilesBack.StreamlessSplit` | src/reader.rs:865-909 | the counter of streamless entries is the number of those before |
| `FilesIo.WriteEmptyStreams` | src/writer.rs:529-551 | the vector of entries without a stream, when there is one |
| `FilesIo.WriteStreamless` | src/writer.rs:553-601 | the empty-file or anti vector, grown only as far as its last member, with the size it then has |
| `FilesIo.WriteNames` | src/writer.rs:603-618 | the names record: UTF-16 units low byte first, each name ended by a zero |
| `FilesIo.WriteStamps` | src/writer.rs:33-75 | a date or attribute record: flags unless all have it, then the values |
| `FilesIo.WriteFilesInfo` | src/writer.rs:514-527 | the file records in their order |
| `FilesIo.NamesReader.Next` | src/reader.rs:1601-1629 | the next name within the bytes announced, or why there is none |
| `FilesIo.ParseNames` | src/reader.rs:756-790 | one name for each entry, exactly the bytes announced |
| `FilesIo.ParseStamps` | src/reader.rs:791-850 | the dates or attributes of the entries that have them |
| `FilesIo.ParseProperty` | src/reader.rs:731-862 | one record; unknown ones are skipped by their size |
| `FilesIo.ParseProperties` | src/reader.rs:726-863 | all records to the end mark |
| `FilesIo.SettleFiles` | src/reader.rs:865-910 | flags of streamless entries and sizes of the others are handed out in order |
| `FilesIo.ParseFilesInfo` | src/reader.rs:715-915 | the file records as a whole |
| `StreamMaps.RunningStarts` | src/reader.rs:920-960 | starting indices as running sums, checked at every step |
| `StreamMaps.CalculateStreamMap` | src/reader.rs:917-1030 | the map from files to blocks, or an error where the counts do not agree |
| `StreamMaps.PlacesMean` | src/reader.rs:962-1026 | each entry with a stream is with the block that holds its stream, an entry without one with the block it lies inside, if any; each block begins at its first entry |
| `StreamMaps.MapsLaid` | src/reader.rs:917-1030 | for every map that is made: packed stream k lies at the sum of the sizes before it, the first packed stream of a block is the number of those of the blocks before, its span lies within the sizes, and the entry with the first stream of a block, and no other, gets the size of the first packed stream of that block |
| `StreamMaps.LaidInOrder` | src/reader.rs:920-960 | each packed stream begins where the one before it ends, and each block's packed streams follow those of the block before |
| `StreamMaps.MapExists` | src/reader.rs:917-1030 | as many streamed entries as streams, and packed streams in range: there is a map |
| `Headers.StreamsRoundTrip` | src/reader.rs:687-713 | packed streams, blocks and sub-streams come back together |
| `Headers.BackFills` | src/reader.rs:865-910 | the entries that come back fill the streams exactly |
| `Headers.HeaderRoundTrip` | src/writer.rs:422-429 | parsing what is printed gives back the packed streams, the coder chains, the sub-streams with sizes and checksums, and every entry, for every archive within the caller's limits that satisfies the conditions of `Fits`; of the bytes the reader counts against it asks no more than those of the header it is given |
| `Headers.BytesAllow` | src/reader.rs:1485-1524 | every count and size that is checked against the bytes of the header behind its first is within them when the header was printed: entries, blocks, coders, streams, names and properties |
| `HeaderIo.ArchiveWriter.WriteStreamsInfo` | src/writer.rs:503-512 | the stream records of what the writer holds |
| `HeaderIo.ArchiveWriter.WriteHeader` | src/writer.rs:422-429 | the whole header of what the writer holds |
| `HeaderIo.ParseStreamsInfo` | src/reader.rs:687-713 | reads the stream records |
| `HeaderIo.ParseHeader` | src/reader.rs:331-365 | reads the header and maps its entries |
| `Headers.PropertiesInFront` | src/reader.rs:336-340 | properties of the archive in front of a header are passed over by just as many bytes as they announce |
| `HeaderIo.WriteThenRead` | src/reader.rs:512-525 | the writer and then the reader, which takes the bytes left of the header for its bound: everything held comes back, for any limits of the caller that leave room for it |
| `Extraction.EachInBlock` | src/reader.rs:2620-2761 | for any callback, the entries of a block in order until it stops, each handed what comes next in the output behind what was read of those before it; reported are just those whose checksum is found right, each with the index and offset of its stream; it fails only on a checksum that does not match and is not ignored |
| `Extraction.EachEntry` | src/reader.rs:2286-2347 | for any callback: what it is handed is what `AllVisits` says, all of it unless a checksum that does not match ends the run; a callback that never stops, however much it reads of each, is handed every entry exactly once just when no streamless entry lies among those of a block; what is reported is right for the whole archive |
| `Extraction.EveryEntryOnce` | src/reader.rs:2286-2347 | whatever is read of each, a callback that never stops is handed every entry exactly once, exactly when no streamless entry lies among those of a block |
| `Extraction.EachHanded` | src/reader.rs:2620-2761 | for any callback: every entry handed out comes with what is next in the output of its own block, and an entry of no block with nothing |
| `Extraction.FromIff` | src/reader.rs:30-57 | reading never gets ahead of an entry's offset, and is at it exactly when every entry before it in the block was read to its end |
| `Extraction.OwnIff` | src/reader.rs:2678-2740 | an entry that is read to its end is handed its own interval, for all contents of the block, exactly when every entry before it in the block is read to its end |
| `Extraction.OwnInterval` | src/reader.rs:2286-2347 | over a whole archive: an entry read to its end, as all before it in its block are, is handed its own interval of the output of its block |
| `Extraction.ShiftedEntry` | src/reader.rs:2678-2740 | two entries of two bytes, one byte read of the first: the second is handed bytes two and three, and a checksum that is right for the archive does not match |
| `Extraction.EachOnce` | src/reader.rs:2286-2347 | the entries with and without a stream are together all entries, each once |
| `Extraction.BlockOf` | src/reader.rs:962-1026 | in a tidy archive an entry with a stream is with the block that holds it, one without with none |
| `Extraction.UntidyMisses` | src/reader.rs:962-1026 | a streamless entry among those of a block: some entry is left out |
| `Extraction.EntriesFillBlock` | src/reader.rs:939-950 | where sizes are aligned, the entries of a block are together as long as the block |
| `Extraction.ReadSizesTaken` | src/reader.rs:865-910 | whatever records are read, the entries have the sizes and checksums of the streams in order |
| `Extraction.MappedMaps` | src/reader.rs:917-1030 | whatever header is read, its map is the map of its entries, with the packed streams laid out as `StreamMaps.MapsLaid` says |
| `Extraction.FileBoundaries` | src/reader.rs:2770-2813 | exactly the offsets at which an entry begins inside the output, ascending; one past the end when there is none |
| `Cbc.CbcRoundTrip` | src/crypto_backend.rs:211-225 | what was encrypted in cipher block chaining is decrypted (NIST SP 800-38A, section 6.2), for any inverse pair |
| `Cbc.EncryptedAt` | src/encryption/aes.rs:385-394 | block by block: each is combined with the ciphertext before it and then enciphered (NIST SP 800-38A, section 6.2) |
| `Cbc.DecryptedAt` | src/crypto_backend.rs:211-225 | block by block, the other way round |
| `Cbc.XorAt` | src/crypto_backend.rs:211-225 | blocks are combined bit by bit, a bit being set where just one has it |
| `Cbc.DecryptSplit` | src/crypto_backend.rs:211-225 | decrypting in two pieces with the last ciphertext block carried over is decrypting at once |
| `Cbc.WholeRunCbc.DecryptRun` | src/crypto_backend.rs:211-225 | decrypts in place, keeps the last ciphertext block as the next start value, and refuses partial blocks unchanged |
| `Cbc.BlockwiseCbc.DecryptRun` | src/crypto_backend.rs:249-258 | the same contract for the backend that goes block by block and carries the chaining value |
| `AesDecoder.Aes256Sha256Decoder.Finish` | src/encryption/aes.rs:86-96 | a clean end only when nothing is left over |
| `AesDecoder.Aes256Sha256Decoder.FillOneBlock` | src/encryption/aes.rs:100-114 | one block for a caller that reads less than one |
| `AesDecoder.Aes256Sha256Decoder.DrainPlain` | src/encryption/aes.rs:117-124 | hands out what is held |
| `AesDecoder.Aes256Sha256Decoder.ReadBulk` | src/encryption/aes.rs:144-166 | whole blocks decrypted in the caller's buffer, the rest carried |
| `AesDecoder.Aes256Sha256Decoder.Read` | src/encryption/aes.rs:127-167 | in every state and for every buffer size: what has come out is a prefix of the decryption of the whole blocks; nothing more comes only when all is out, and a partial block at the end is an error |
| `AesDecoder.ReadRun` | src/encryption/aes.rs:127-167 | any sequence of read sizes: the bytes concatenate to the one-shot decryption, and the end is clean exactly when the ciphertext is whole blocks |
| `AesDecoder.FlowRun` | src/encryption/aes.rs:144-166 | whole blocks out and a new carry keep carry, start value and output in step |
| `AesEncoder.Aes256Sha256Encoder.WriteBlock` | src/encryption/aes.rs:385-394 | one block chained and put out |
| `AesEncoder.Aes256Sha256Encoder.Write` | src/encryption/aes.rs:399-438 | any write is taken whole; the empty write pads and ends |
| `AesEncoder.Aes256Sha256Encoder.Flush` | src/encryption/aes.rs:440-449 | after the end, what is held goes out with zeros behind it; before, nothing happens |
| `AesEncoder.EncryptAll` | src/encryption/aes.rs:399-449 | the output is the encryption of the concatenation, zero-padded, whatever the write sizes |
| `AesEncoder.RoundTrip` | src/encryption/aes.rs:127-449 | encoder, properties, key derivation and decoder together: the padded plaintext comes back, for any write and read sizes |
| `AesKey.AddOne` | src/encryption/aes.rs:284-289 | the carry loop is the little-endian increment |
| `AesKey.DeriveKey` | src/encryption/aes.rs:273-292 | the hash of salt, password and counter for every counter below 2^power |
| `AesKey.Password.DeriveWithBudget` | src/encryption/aes.rs:312-346 | the derived key on a hit or within the budget, exactly then; hits and refusals charge nothing, a miss its 2^power |
| `AesKey.RunRequests` | src/encryption/aes.rs:295-346 | over every run on one password with a cache of one key: a request is answered, with the key derived for it, exactly when it repeats the last one derived or its own budget bears the charge; the total is what the misses cost |
| `AesKey.MissesAre` | src/encryption/aes.rs:312-346 | a request is charged exactly when it does not repeat the last miss and its budget bears it; the running total after each charge is within the budget in force then, and hits and refusals charge nothing |
| `AesKey.GetAesKey` | src/encryption/aes.rs:203-264 | succeeds exactly when the properties can be read, there is a password and the work is within bounds; key and start value are those the properties name |
| `AesKey.PartsRoundTrip` | src/encoder_options.rs:555-561 | the power, salt and start value written are read back |
| `AesKey.PartsBack` | src/encryption/aes.rs:209-234 | for every power, and a salt and a start value of 0 to 16 bytes each: flags, lengths and bytes laid out field by field are read back, the start value filled up with zeros at its end |
| `AesKey.PartsCut` | src/encryption/aes.rs:209-230 | properties cut short are refused; a lone first byte stands for itself and a zero |
| `AesKey.RawKeyIs` | src/encryption/aes.rs:238-246 | the raw key byte by byte: the salt, the password as far as it fits, zeros |
| `AesKey.HashedAt` | src/encryption/aes.rs:273-292 | what is hashed, round by round: salt, password and the number of the round in eight bytes |
| `Bridge.StepKeeps` | src/codec/lzma_turbo/writer.rs:94-299 | every step of either process keeps: consumed bytes and queued chunks are what was accepted, inner sink and output queue are what was emitted, the channel is within its bound |
| `Bridge.RunKeeps` | src/codec/lzma_turbo/writer.rs:94-299 | every state of every interleaving satisfies that |
| `Bridge.NoDeadlock` | src/codec/lzma_turbo/writer.rs:214-299 | while a call is under way some step can be taken |
| `Bridge.StepsEnd` | src/codec/lzma_turbo/writer.rs:214-299 | every step other than a new request leaves less to do |
| `Bridge.RunToRest` | src/codec/lzma_turbo/writer.rs:214-299 | any schedule comes to rest, finished with the encoding or failed |
| `Bridge.InFlight` | src/codec/lzma_turbo/writer.rs:94-123 | what is under way to the encoder is bounded by the channel and one chunk |
| `Bridge.FinishedIsEncoded` | src/codec/lzma_turbo/writer.rs:239-268 | after a successful finish the inner sink holds the encoding of all writes |
| `Bridge.SameAsBuffered` | src/codec/lzma_turbo/writer.rs:173-268 | in every interleaving that finishes, the result is that of the buffered fallback with the same encoder |
| `Bridge.BufferedWriter.Write` | src/codec/lzma_turbo/writer.rs:272-293 | without a thread, writes are collected |
| `Bridge.BufferedWriter.Finish` | src/codec/lzma_turbo/writer.rs:239-268 | without a thread, all is encoded at the end |
| `Lzma2Reader.FeedTarget` | src/codec/lzma_turbo.rs:904-909 | a run per thread but not less than the floor, and never more than half the budget |
| `Lzma2Reader.FedIsPrefix` | src/codec/lzma_turbo.rs:753-889 | what the decoder was fed is the input up to the place in the window |
| `Lzma2Reader.Lzma2MtReader.Refill` | src/codec/lzma_turbo.rs:753-793 | drops what was fed and reads another chunk; the place in the input does not move, and the scanner's place is at the end of the window again, so that it is never before the place fed up to |
| `Lzma2Reader.Lzma2MtReader.Scan` | src/codec/lzma_turbo.rs:775-791 | the walk over the new bytes adds what the scanner took, or counts all as seen when it is finished or broken; either way its place ends at the end of the window |
| `Lzma2Reader.Lzma2MtReader.FeedUpTo` | src/codec/lzma_turbo.rs:857-886 | feeds a part of the window, past the safe limit only to chase |
| `Lzma2Reader.Lzma2MtReader.PumpInput` | src/codec/lzma_turbo.rs:821-889 | ends on every input; tells whether anything was fed; stops only for runs enough, a decoder that holds or takes no more, or nothing in reach; never feeds into an open run unless chasing, at the end, or unable to scan |
| `Lzma2Reader.Lzma2MtReader.Sink` | src/codec/lzma_turbo.rs:992-1026 | the caller's buffer first, the rest held back in order |
| `Lzma2Reader.Lzma2MtReader.Spill` | src/codec/lzma_turbo.rs:1002-1018 | fixed-size pieces that together are what was handed over |
| `Lzma2Reader.Lzma2MtReader.Drain` | src/codec/lzma_turbo.rs:981-1028 | given and held back are what the decoder delivered, also when the sink gets more than asked for |
| `Lzma2Reader.Lzma2MtReader.Round` | src/codec/lzma_turbo.rs:955-1074 | one turn of the reading loop; an early end only when everything was fed and everything given |
| `Lzma2Reader.Lzma2MtReader.Read` | src/codec/lzma_turbo.rs:934-1076 | caller bytes are sink deliveries in order; nothing more only when the decoder has finished; a decoding error only when the decoder failed |
| `Bcj.ThroughMore` | src/codec/filter/bcj.rs:71-77 | one more call over the tail and what came behind it is the conversion of all so far |
| `Bcj.BcjReader.Read` | src/codec/filter/bcj.rs:175-242 | fills the buffer unless the stream ends: the conversion of the whole stream, whatever the read sizes |
| `Bcj.BcjReader.CopyOut` | src/codec/filter/bcj.rs:186-211 | hands out what is ready and moves the tail to the front when the window is used up |
| `Bcj.BcjReader.Fill` | src/codec/filter/bcj.rs:213-240 | one read behind the tail, converted, or the end |
| `Bcj.BcjWriter.Write` | src/codec/filter/bcj.rs:344-363 | what is put out is the conversion so far, the tail kept at the front |
| `Bcj.BcjWriter.Finish` | src/codec/filter/bcj.rs:328-339 | the unconverted tail goes out as it is |
| `Bcj.RoundTrip` | src/codec/filter/bcj.rs:174-363 | writer and then reader with inverse converters: the data comes back |
| `Digest.Sink.Update` | tools/decode-bench/src/main.rs:372-418 | carry, lane alignment and the four-at-a-time loop give the fold of word k into lane k mod 4 |
| `Digest.Sink.MixFour` | tools/decode-bench/src/main.rs:400-408 | four words at a lane boundary, each to its own lane |
| `Digest.Sink.Finish` | tools/decode-bench/src/main.rs:433-446 | the digest of everything seen |
| `Digest.DigestPieces` | tools/decode-bench/src/main.rs:372-446 | any cutting of the same bytes gives the same digest |
| `Digest.MixTells` | tools/decode-bench/src/main.rs:425-430 | no two words are mixed into a lane the same |
| `Digest.RotateBit` | tools/decode-bench/src/main.rs:425-430 | every bit of a lane goes 23 places up, the highest coming round |
| `Digest.MixKnown` | tools/decode-bench/src/main.rs:425-430 | two words mixed into an empty lane: multiplied first, then turned |
| `Memory.Lzma2PropertyFor` | src/encoder.rs:227-233 | the least property whose dictionary is no smaller than the encoder's |
| `Memory.ClampDictionary` | src/codec/lzma_turbo.rs:85-89 | never above the declared size or what the output can refer back to, and one of the two |
| `Memory.Lzma2ClampedProp` | src/codec/lzma_turbo.rs:97-110 | the least property that covers the smaller of declared size and useful size |
| `Memory.DecoderMemoryEstimate` | src/container.rs:465-475 | the largest block, each the sum of its coders, stopping at the top of a 64-bit word; none where a coder has no model |
| `Memory.FixedEstimates` | src/container.rs:483-524 | the methods whose estimate does not depend on their properties, in bytes, and none for a method there is no model of |
| `Memory.ConverterEstimate` | src/container.rs:507-518 | the branch converters, in bytes |
| `Memory.CheckCoder` | src/decoder.rs:152-221 | which coders are refused, which are over the limit: LZMA by its useful dictionary, LZMA2 exactly when no table size that covers it fits, PPMd by what it declares |
| `Memory.NeverLimitedLater` | src/container.rs:465-525 | a block accepted up front never trips a per-coder memory check, whatever the output size |
| `Memory.MtBudget` | src/codec/lzma_turbo.rs:534-544 | all that the limit leaves beside the decoder, or none when that is under 32 MiB |

## Left out

- The codecs proper (LZMA, LZMA2, PPMd, zstd, brotli, bzip2, deflate, lz4), the AES block function, SHA-256 and CRC-32: parameters or abstract functions. A cipher is any pair of functions on blocks; the round trips ask for an inverse pair.
- The branch converters: `Bcj` takes any converter that gives the same result however its input is split and keeps back a bounded tail.
- The LZMA2 decoder and scanner: `Lzma2Reader` keeps only what is fed, delivered and in flight, and positions, with the contracts of `docs/lzma-turbo-requests.md`. Below its end the scanner takes all it is given.
- Inner reads that fail: BCJ2 hands the error on, and what the same call decoded before it is not returned, though it is counted against the declared size (`bcj2.rs:145-148`); nothing is claimed afterwards. For AES, BCJ and the LZMA2 reader inner reads do not fail, because the bulk path drops its carry on an inner error (`aes.rs:146-150`).
- Lzma2Reader.Lzma2MtReader.Read: `rounds` bounds how often it goes round; how soon something comes out is the decoder's affair. Tracing, thread-count control, checksum collection and buffer reuse are not there.
- Bridge.SameAsBuffered: for one encoder; that LZMA2 cut into blocks over several threads gives the same bytes as the fallback is not claimed.
- Headers.HeaderRoundTrip: for one packed stream and one chain of coders to a block, which is all the writer makes; `Layouts` has the other forms of the records of packed streams and blocks. The signature header, the encoded header, and the search for the end header are not modelled.
- Names are sequences of UTF-16 units; that they make up text is a predicate. Header counts are unbounded naturals below the limits that are checked.
- Bcj2Encode.RoundTrip: the repository has no BCJ2 encoder; this one is a reference for its decoder, with an unbounded low end where a real one carries.
- Error messages: kinds of errors are grouped into end of data, limit, unsupported, bad terminator and bad structure.
- Extraction.EachEntry: checksums are computed by the reader that is modelled; the path that folds the checksums of worker pieces, and the hook told of whole blocks, are not.
- AesEncoder.Aes256Sha256Encoder.Flush: the 32-bit counter of bytes written is not modelled; neither are seeking in the decoder and wiping of keys.
- Memory.CheckCoder: the window limits handed to zstd and brotli, and the check of the AES work of an archive, are not modelled; the bounds of PPMd order and memory are parameters.
- File-system extraction, path checks, bindings, host hooks, compression of directories, and the benchmark tool besides its digest: input, output or policy.
