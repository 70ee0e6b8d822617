# CarPlay hook and renderer: verified models

This project models the parts of the CarPlay retrofit whose correctness is least visible from the
code, and proves what they promise; `dafny verify dfyconfig.toml` covers the whole project.

* **Inflate and PNG** (`Bits`, `BitReversal`, `HuffmanCode`, `ZHuffmanTable`, `Deflate`, `CodeLengths`,
  `BitSupply`, `BlockDecoding`, `DescriptionDecoding`, `InflateSpec`, `InflateUnique`, `DecodingPath`,
  `Inflate`, `InflateTruncated`, `PngFilter`, `Adam7`, `PngImage`). The unread input is a number whose
  bit 0 is the next bit.
  `HuffmanCode` defines canonical codes as section 3.2.2 of RFC 1951 does, with no table; the class
  `ZHuffman` builds the decoder's tables and is proved to find exactly the symbol whose code comes
  next. `InflateSpec` says what a chain of blocks is and `BitSupply` counts where the decoder's bits
  come from. `DecodingPath` puts both together: a stream can be decoded exactly if it is a chain that
  the supply lasts for, which includes every chain within the input, and there is only one way to. The
  class `ZBuf`, with its bit buffer and growing output, accepts exactly those. PNG rows are unfiltered in
  two alternating buffers and passes are scattered. `DeflateRules`, `InflateRules` and `PngRules` state the
  formats by their numbers: which symbol and extra bits mean which length, what each header bit and filter
  byte means.
* **Event bus** (`BusFrame`, `BusCore`, `BusProtocol`, `BusRuns`, `BusNumbers`, `BusFailures`). `Bus`
  has one method per critical section, each tied to a function on the shared state. `BusProtocol`
  interleaves senders, writer and connector as a state machine, `BusRuns` proves its promises for every
  run, `BusNumbers` says which frames of a connection share a number, and `BusFailures` has complete
  runs in which a promise one might expect is not kept. `BusRules` has the bytes of a frame and the greeting
  of every unbroken connection.
* **Cover art** (`CoverPackets`, `CoverStream`, `CoverSlot`, `CoverHook`, `CoverRules`, `CoverPublish`): packet
  framing with resynchronisation, collection of one session's image, the life of a stream slot, the
  worker's one-slot queue and the publication through a symbolic link.
* **Transition engine** (`Engine`, `EngineRules`), **iAP2 messages** (`Iap2`, `Iap2Rules`), **class-file
  rewriting** (`ClassFile`, `ClassRules`) and **route metadata** (`AmapMeta`).

Classes carry the source's own fields; each method's contract equates the new state with a function
of the old one, and the lemmas speak about that function. The modules named after rules say what those
functions mean in bytes, field values and numbers alone, so that a function and the method that computes it
cannot both be wrong in the same way. `Common` holds optional values and big-endian numbers.

## What the models showed

* A replayed frame keeps the number it was cached under (bus.c:147-150, 373-374), although
  bus_protocol.h:37 says numbers are re-assigned, and bus_protocol.h:13 calls them monotonically
  increasing. The numbers a drained connection carried rise exactly if its snapshot found nothing cached
  and nothing queued (`NumbersRiseExactlyWhen`). No replay is numbered above the SYNC_BEGIN before it.
* Numbers are not unique on a connection either. A replay shares its number with a frame of the same
  connection exactly if that frame is what has the number (`NumberSharedExactlyWhen`): the HELLO or
  SYNC_BEGIN that was given a number handed back by a refused send, another replay with the same holder,
  or a frame queued at the snapshot, be it the cached frame itself or one accepted after the refusal.
  `ReplayUnderHello`, `SentTwice` and `TwoFramesOneNumber` are complete runs. No other frames share one.
* A sticky send that finds the queue full is cached although it is refused, and its number is handed
  back. Connections already live then end with the older payload (`TurnedAway`, with a complete run in
  `RejectedSendDiverges`); one greeted later ends with the refused payload unless a frame still queued
  says otherwise (`GreetedAfterRefusal`). Queue policies are stored and never consulted: a full queue
  always turns the newest frame away.
* The results of the snapshot's writes are not looked at, so a connection on which one failed is still
  exposed. The latest payload of a sticky type, once queued, then arrives exactly unless the lost frame
  was its replay and nothing of its type was still to be sent; an older one never does in its place
  (`MissedReplay` for one frame, `StickyConvergence` for whole runs, `LostReplayDiverges` for a
  complete run).
* After a restart the publisher assumes slot 0. If slot 1 was in use, the next publication empties the
  file readers are looking at (`RestartTruncates`; exactly when: `RestartSafeExactlyWhen`).
* A start command that arrives while a maneuver shown after the preload is still being pushed in
  discards that maneuver (`StartKeepsExactlyWhen`, `DisorderlyStartLoses`); that is the one way in which
  the maneuver brought last fails to be shown (`LatestWinsExactlyWhen`, `SettlesExactlyWhen`). A start in
  the same batch of commands as a preload that ends it comes too early (`StartInSameBatchIsIgnored`).
* The update number of the route metadata is 0 until the first route update and never again.
* `iap2_find_tlv_offset` answers 0 both for a match at the front and for no match
  (`ZeroExactlyWhen`); only the length it writes tells them apart.
* The end-of-input check of the block decoder is not exact. Whenever the bit buffer runs low it is
  refilled with zero bytes, also behind the input, and these are not recorded; only the sixteen bits
  added for a code word are. So a stream that stops after a few bits may be completed by zeros: the
  single byte 3, or 78 9C 03 with a header, is accepted as an empty stream although its block ends
  behind it (`AcceptsTruncated`, `AcceptsTruncatedZlib`). What is accepted is exactly what the supply,
  made-up bits included, lasts for (`ParseZlib`). An accepted block lies within the input exactly if no
  more zero bits were made up than are still buffered (`WithinExactlyWhen`), the check refuses exactly
  what goes beyond the unrecorded ones (`CheckRefusesExactlyWhen`), none exist while four more bytes
  follow (`FourBytesFollow`), and without extra bits read past the end an accepted block ends at most
  three bytes behind the input (`ThreeBytesAtMost`).

## Model

| member | source | states |
|---|---|---|
| BitReversal.BitReverseCorrect | c_hook/coverart/stb_image.h:4107-4122 | the mask-and-swap reversal is the arithmetic bit reversal, for every value and every width up to 16 |
| HuffmanCode.MatchUnique | c_hook/coverart/stb_image.h:4124-4169 | canonical codes are prefix-free: no bit window begins with the codes of two symbols |
| HuffmanCode.CodesTile | c_hook/coverart/stb_image.h:4139-4149 | codes of length up to s tile an initial interval of the windows: a window below the bound carries one of them |
| HuffmanCode.MatchesIsInterval | c_hook/coverart/stb_image.h:4224-4241 | a code is a prefix of a window exactly when the reversed window lies in the code's interval |
| HuffmanCode.MatchAtLength | c_hook/coverart/stb_image.h:4224-4241 | between two consecutive bounds a window carries a code of exactly that length, the one of that rank |
| HuffmanCode.SlotInjective | c_hook/coverart/stb_image.h:4151-4157 | two used symbols never share an entry of the size and value tables |
| HuffmanCode.AcceptedIsKraft | c_hook/coverart/stb_image.h:4135-4149 | the builder's two range tests together accept exactly the length lists that satisfy the Kraft inequality |
| ZHuffmanTable.WalkEnters | c_hook/coverart/stb_image.h:4158-4164 | stepping through the direct table fills exactly the cells that the symbol's code is a prefix of |
| ZHuffmanTable.FastHit | c_hook/coverart/stb_image.h:4263-4269 | a filled direct cell holds the symbol and length of the code the window begins with |
| ZHuffmanTable.FastMiss | c_hook/coverart/stb_image.h:4263-4270 | an empty direct cell means that only a code longer than nine bits can begin the window |
| ZHuffmanTable.LengthStep | c_hook/coverart/stb_image.h:4139-4149 | one round of the per-length loop truncates nothing, its range test is exact, and maxcode is the tiling bound |
| ZHuffmanTable.ZHuffman.CountSizes | c_hook/coverart/stb_image.h:4130-4134 | the histogram holds, for every length, the number of symbols of that length |
| ZHuffmanTable.ZHuffman.CheckSizes | c_hook/coverart/stb_image.h:4135-4137 | accepts exactly when no length has more codes than it can hold |
| ZHuffmanTable.ZHuffman.Build | c_hook/coverart/stb_image.h:4124-4169 | for any lengths up to 15 it succeeds exactly on acceptable lists, and then all tables are those of the list's canonical code |
| ZHuffmanTable.ZHuffman.Resolve | c_hook/coverart/stb_image.h:4263-4271 | fast table or slow path, it yields the one symbol whose code begins the window, with its length, and -1 exactly when there is none |
| ZHuffmanTable.ZHuffman.SlowPath | c_hook/coverart/stb_image.h:4224-4241 | the left-justified search does so too; its two corruption guards never decide on a built table |
| Deflate.LengthRangesTile | c_hook/coverart/stb_image.h:4295-4301 | the length codes' ranges tile 3..258 |
| Deflate.DistRangesTile | c_hook/coverart/stb_image.h:4303-4307 | the distance codes' ranges tile 1..32768 |
| Deflate.CopyMatchPeriodic | c_hook/coverart/stb_image.h:4349-4354 | earlier output survives a copy, and every copied byte equals the one a distance before it, overlap included |
| Deflate.CopyMatchRun | c_hook/coverart/stb_image.h:4349-4352 | a copy from distance one is a run of the last byte |
| Deflate.BlockRoundTrip | c_hook/coverart/stb_image.h:4309-4357 | any encodable token list, encoded and closed by end-of-block before any further stream, reads back as itself and leaves that stream |
| Deflate.TokenUnique | c_hook/coverart/stb_image.h:4309-4357 | the stream determines its next literal or copy |
| DeflateRules.CodeBits | c_hook/coverart/stb_image.h:4107-4122 | of a code read from the stream the first bit is the most significant one |
| DeflateRules.FirstCodeIsZero | c_hook/coverart/stb_image.h:4139-4149 | the first symbol of the shortest length in use has the code 0 |
| DeflateRules.CodesConsecutive | c_hook/coverart/stb_image.h:4139-4149 | symbols of one length have consecutive codes in their own order |
| DeflateRules.FirstOfNextLength | c_hook/coverart/stb_image.h:4139-4149 | the first code of a length is the one after the last shorter code, with zeros behind it |
| DeflateRules.LiteralsAndEnd | c_hook/coverart/stb_image.h:4312-4333 | symbols below 256 are the bytes themselves and symbol 256 ends a block |
| DeflateRules.CopyMeans | c_hook/coverart/stb_image.h:4334-4354 | for every length from 3 to 258 and every distance from 1 to 32768 there is a copy, behind any output that long, that adds exactly so many bytes, each the one so far before it, and keeps the rest |
| DeflateRules.CopyReads | c_hook/coverart/stb_image.h:4295-4342 | on the stream that copy is the length's symbol, its extra bits, the distance's symbol and its extra bits, symbols and values by the rule of section 3.2.5 of RFC 1951 |
| DeflateRules.CopyReaches | c_hook/coverart/stb_image.h:4343-4343 | it is refused exactly if it reaches back beyond the start of the output |
| DeflateRules.CopiesAreThese | c_hook/coverart/stb_image.h:4334-4343 | there are no other copies, but for a second way to write the length 258 |
| Inflate.ZBuf.FillByte | c_hook/coverart/stb_image.h:4197-4212 | one byte joins the buffer behind the bits already there; the early-end guard never fires and the zero-extended stream is unchanged |
| Inflate.ZBuf.FillBits | c_hook/coverart/stb_image.h:4202-4212 | refilling leaves 25 to 32 bits, all within the buffer's width, and the same remaining stream |
| Inflate.ZBuf.Receive | c_hook/coverart/stb_image.h:4214-4222 | returns the next k bits of the least-significant-bit-first stream and removes exactly them |
| Inflate.ZBuf.PadSixteen | c_hook/coverart/stb_image.h:4246-4254 | the sixteen padding bits are the zeros that follow the input, so the remaining stream is unchanged |
| Inflate.ZBuf.HuffmanDecode | c_hook/coverart/stb_image.h:4243-4271 | consumes the one code that comes next; refuses only if none does or the input is already over-read |
| Inflate.ZBuf.ZExpand | c_hook/coverart/stb_image.h:4273-4293 | earlier output survives, room for n more bytes results from doubling no further than needed, and it fails exactly for a fixed buffer or beyond what doubling within 32 bits can reach |
| Inflate.GrownIsDoubled | c_hook/coverart/stb_image.h:4273-4293 | the room a growing buffer can reach is its size doubled until one more doubling would not fit 32 bits |
| Inflate.ZBuf.PutCopy | c_hook/coverart/stb_image.h:4344-4354 | the output grows by the LZ77 copy, whether by the run shortcut or byte by byte, also across a reallocation |
| Inflate.ZBuf.ReadItem | c_hook/coverart/stb_image.h:4312-4343 | yields the literal, copy or end that the stream holds; an error means that the supply lasts for nothing the stream holds |
| BitSupply.WithinExactlyWhen | c_hook/coverart/stb_image.h:4197-4257 | what was taken lies within the input exactly if no more zero bits were made up than are still buffered |
| BitSupply.CheckRefusesExactlyWhen | c_hook/coverart/stb_image.h:4330-4338 | the end-of-input check refuses exactly if the sixteen were added and more was taken beyond the input than refilling made up |
| BitSupply.FourBytesFollow | c_hook/coverart/stb_image.h:4197-4257 | no zero bits are made up while a byte is unread or four bytes follow, and the check is exact while refilling made up none |
| BitSupply.ThreeBytesAtMost | c_hook/coverart/stb_image.h:4197-4257 | if no number is taken that the buffer cannot supply behind the input, an accepted block ends at most three bytes behind it |
| BitSupply.PulledAllSound | c_hook/coverart/stb_image.h:4197-4257 | a sequence of reads is refused only beyond the end of the input, and otherwise the supply accounts for every bit |
| BlockDecoding.WithinLasts | c_hook/coverart/stb_image.h:4309-4357 | the supply lasts for every block that ends within the input, whatever its codes |
| Inflate.ZBuf.ParseHuffmanBlock | c_hook/coverart/stb_image.h:4309-4357 | terminates; decodes exactly if the stream holds a block that fits the room, that the bit supply lasts for and whose end passes the check; then appends exactly the expansion of its tokens and stops right behind it; an accepted one lies within the input exactly if no more zero bits were made up than are left |
| Inflate.ZBuf.ParseUncompressedBlock | c_hook/coverart/stb_image.h:4409-4436 | stored bytes are taken from right behind the header, none having been swallowed by the bit buffer; refused exactly if absent, not within the input or without room |
| CodeLengths.OpsUnique | c_hook/coverart/stb_image.h:4378-4400 | two instruction lists that spell out equally many lengths from one stream are the same list |
| DescriptionDecoding.NextAwaited | c_hook/coverart/stb_image.h:4378-4400 | while lengths are missing, the next instruction of a description that the supply lasts for fits the lengths still missing |
| DescriptionDecoding.DescriptionToUnique | c_hook/coverart/stb_image.h:4359-4407 | stream and supply determine the described codes, the bits they take and the supply behind them |
| DescriptionDecoding.DescriptionWithin | c_hook/coverart/stb_image.h:4359-4407 | a description within the input is always supplied |
| Inflate.ZBuf.ComputeHuffmanCodes | c_hook/coverart/stb_image.h:4359-4407 | succeeds exactly if the stream describes two valid codes, as section 3.2.7 of RFC 1951 has it, and the supply lasts for the description; then exactly their tables are built |
| InflateSpec.FixedCodesAccepted | c_hook/coverart/stb_image.h:4452-4479 | both fixed codes fill the code space exactly, so their tables are always built |
| InflateSpec.BlockGrows | c_hook/coverart/stb_image.h:4309-4436 | every block of a stream moves forward and only adds to the output |
| InflateRules.StreamBits | c_hook/coverart/stb_image.h:4197-4222 | bit k of the stream is bit k mod 8 of byte k / 8, the lowest one first |
| InflateRules.BlockHeader | c_hook/coverart/stb_image.h:4488-4506 | the lowest bit marks the last block, the next two name its kind: 0 stored, 1 fixed, 2 described codes, 3 refused |
| InflateRules.StoredRule | c_hook/coverart/stb_image.h:4409-4436 | a stored block is, from the next byte on, a two-byte length and its complement, low bytes first, and the data |
| InflateRules.StoredStream | c_hook/coverart/stb_image.h:4409-4436 | any data below 65536 bytes behind the bytes 1, length and complement is a whole stream that inflates to it |
| InflateRules.FixedRule | c_hook/coverart/stb_image.h:4452-4479 | length and code of each of the 288 symbols of the fixed code, as the table of section 3.2.6 has them |
| InflateRules.FixedDistanceRule | c_hook/coverart/stb_image.h:4464-4477 | the 32 fixed distance codes are the five-bit numbers |
| InflateRules.DescriptionRule | c_hook/coverart/stb_image.h:4367-4376 | a description begins with 5, 5 and 4 bits that count from 257, 1 and 4 |
| InflateRules.CodeLengthRule | c_hook/coverart/stb_image.h:4361-4376 | the three-bit lengths come in the order 16, 17, 18, 0, 8, 7, 9, 6 and so on outwards; missing ones are 0 |
| InflateRules.OpRule | c_hook/coverart/stb_image.h:4378-4397 | symbols below 16 are lengths; 16, 17 and 18 are followed by 2, 3 and 7 bits |
| InflateRules.RunRule | c_hook/coverart/stb_image.h:4378-4400 | they append the length, the last length 3 or more times, or 3 or 11 and more zeros |
| Inflate.ZBuf.ParseFixed | c_hook/coverart/stb_image.h:4495-4501 | decodes exactly if there is a block under the fixed codes that the supply lasts for and that fits the room |
| Inflate.ZBuf.ParseDynamic | c_hook/coverart/stb_image.h:4502-4506 | decodes exactly if there is a block with its own codes whose description and tokens the supply lasts for and that fits the room |
| Inflate.ZBuf.ParseBlock | c_hook/coverart/stb_image.h:4488-4509 | decodes exactly if there is a block of the kind its header names that the supply lasts for and that fits the room |
| Inflate.ZBuf.ParseZlibHeader | c_hook/coverart/stb_image.h:4438-4450 | accepts exactly the two-byte headers RFC 1950 allows here with data behind them |
| InflateRules.HeaderRule | c_hook/coverart/stb_image.h:4438-4450 | which are those with at least a byte behind them, together a multiple of 31, method 8 and no dictionary |
| DecodingPath.BlockToUnique | c_hook/coverart/stb_image.h:4488-4509 | from one place a stream has one block, ending in one place with one output and one supply |
| DecodingPath.BlockUnspent | c_hook/coverart/stb_image.h:4330-4338 | no block is accepted that took any of the sixteen zero bits the decoder adds itself |
| DecodingPath.StreamInflates | c_hook/coverart/stb_image.h:4481-4511 | whatever the decoder accepts is a chain of blocks of the format, only the last one final |
| DecodingPath.StreamWithin | c_hook/coverart/stb_image.h:4481-4511 | every chain of blocks that lies within the input and fits the room can be decoded |
| Inflate.DueIsInflated | c_hook/coverart/stb_image.h:4481-4511 | and to nothing else |
| Inflate.ZBuf.ParseZlib | c_hook/coverart/stb_image.h:4481-4511 | always terminates, also past the end of input; accepts exactly if the header is acceptable and the input is a chain of blocks that the bit supply lasts for and that fits the room, in particular every chain within the input; the output is what the chain holds |
| InflateTruncated.LoneThreeIsDue | c_hook/coverart/stb_image.h:4481-4511 | whenever the byte 3 is all that is left at a byte boundary, a final fixed block begins in it that the supply lasts for and that ends two bits behind it |
| InflateTruncated.AcceptsTruncated | c_hook/coverart/stb_image.h:4481-4511 | decoding the single byte 3 succeeds having used 10 of 8 bits |
| InflateTruncated.AcceptsTruncatedZlib | c_hook/coverart/stb_image.h:4481-4511 | decoding 78 9C 03 succeeds having used 26 of 24 bits |
| InflateUnique.BlockUnique | c_hook/coverart/stb_image.h:4309-4357 | the stream determines the tokens of a compressed block |
| InflateUnique.DescriptionUnique | c_hook/coverart/stb_image.h:4359-4407 | the stream determines the codes a dynamic block describes and the bits that takes |
| InflateUnique.InflatesUnique | c_hook/coverart/stb_image.h:4481-4511 | two decodings of one stream agree block for block, so a successful result is the only possible one |
| PngFilter.PaethIsPredictor | c_hook/coverart/stb_image.h:4657-4668 | the rearranged predictor equals that of section 6.6 of RFC 2083 on all integers |
| PngFilter.RowsAreRight | c_hook/coverart/stb_image.h:4725-4787 | every byte of every row is, modulo 256, the raw byte plus nothing, the byte to the left, the byte above, half their sum, or the section 6.6 predictor, for filter bytes 0 to 4, with zeros outside the image; reading fails exactly on a filter byte above 4 |
| PngFilter.ReconFiltered | c_hook/coverart/stb_image.h:4755-4785 | unfiltering undoes filtering, for every row, row above and filter |
| PngFilter.FirstRow | c_hook/coverart/stb_image.h:4648-4655 | the substituted first-row filter gives what the real one gives below an all-zero row, whatever the other buffer holds |
| PngFilter.UnfilterRow | c_hook/coverart/stb_image.h:4755-4785 | in place, the current buffer becomes the reconstructed row and the buffer above is untouched |
| PngFilter.CreateImageRaw | c_hook/coverart/stb_image.h:4725-4787 | succeeds exactly on enough data with filter bytes 0 to 4, and then yields rows whose every byte is right by its filter byte (as in RowsAreRight) |
| PngFilter.FilterRoundTrip | c_hook/coverart/stb_image.h:4725-4787 | any image under any choice of filters comes back, also with further data behind it |
| PngFilter.ExpandAlpha | c_hook/coverart/stb_image.h:4672-4693 | expanding in the same buffer keeps every sample and adds opaque alpha |
| Adam7.EveryPixelHit | c_hook/coverart/stb_image.h:4873-4896 | every pixel of every image is the target of a pixel within its pass's computed extent |
| Adam7.HitOnce | c_hook/coverart/stb_image.h:4873-4896 | no pass pixel lands outside the image or where another one lands |
| Adam7.ScatterPass | c_hook/coverart/stb_image.h:4888-4895 | one pass sets exactly its own pixels |
| Adam7.Deinterlace | c_hook/coverart/stb_image.h:4871-4901 | the seven passes give every pixel the sample of the pass section 2.6 of RFC 2083 assigns it |
| Adam7.InterlaceRoundTrip | c_hook/coverart/stb_image.h:4871-4901 | scattering extracted passes restores the image |
| PngRules.PassesAreThese | c_hook/coverart/stb_image.h:4873-4882 | odd rows are the last pass, odd columns of the other rows the one before, down to every eighth pixel |
| PngRules.PassSizes | c_hook/coverart/stb_image.h:4883-4885 | width and height of each pass as quotients of the image's |
| PngRules.SampleIs | c_hook/coverart/stb_image.h:4888-4895 | pixel (x, y) is the one of its pass at x and y divided by the pass's spacing |
| PngImage.ReadPass | c_hook/coverart/stb_image.h:4867-4868 | the pixels of one filtered image, or a refusal, from data of any content |
| PngRules.PassIs | c_hook/coverart/stb_image.h:4867-4868 | that is, it is read exactly if its rows are there under known filters, and pixel i of a row is then the i-th group of its bytes |
| PngImage.PassRoundTrip | c_hook/coverart/stb_image.h:4867-4868 | a filtered image of whole-byte pixels is recovered pixel by pixel |
| PngImage.CreateInterlaced | c_hook/coverart/stb_image.h:4861-4904 | reading pass after pass fails exactly when some non-empty pass is short or has an unknown filter, and otherwise places every sample |
| PngRules.PassesAt | c_hook/coverart/stb_image.h:4861-4904 | each pass with pixels lies behind the rows of those before it, a filter byte per row included |
| PngRules.PassesReadable | c_hook/coverart/stb_image.h:4861-4904 | all passes are read exactly if each with pixels can be read at its place |
| PngImage.InterlacedRoundTrip | c_hook/coverart/stb_image.h:4861-4904 | an image split into passes, filtered row by row and laid end to end comes back, empty passes taking no data |
| BusFrame.BuildHeader | c_hook/framework/bus.c:208-216 | the sixteen bytes put on the wire are the frame's big-endian header |
| BusRules.FrameBytes | c_hook/framework/bus.c:208-233 | they are CPHB, number, type, flags, a zero byte and the payload's length, most significant bytes first; the payload follows |
| BusFrame.WireRoundTrip | c_hook/framework/bus.c:208-233 | the bytes of any list of frames that fit the header decode to exactly that list |
| BusCore.SendQueue.Enqueue | c_hook/framework/bus.c:168-175 | the ring appends at the end of a first-in-first-out queue, or leaves a full one alone |
| BusCore.SendQueue.Dequeue | c_hook/framework/bus.c:177-184 | the ring gives up the oldest frame and its payload, leaving nothing behind in the slot |
| BusCore.Bus.SetSticky | c_hook/framework/bus.c:238-246 | changes one type's flag; an unknown type changes nothing |
| BusCore.Bus.BusSend | c_hook/framework/bus.c:294-345 | numbers, caches and queues as one atomic step; a full queue hands the number back but keeps the cache |
| BusCore.SendRule | c_hook/framework/bus.c:294-345 | refused for a type above 63 or more than 131072 bytes, busy with 256 frames queued; cached if flag bit 0 is set or the type is configured, and only in its own place |
| BusCore.Bus.NextSeq | c_hook/framework/bus.c:549-551 | the number of a HELLO is the next one and advances the counter, all else staying as it is |
| BusCore.Bus.TakeSnapshot | c_hook/framework/bus.c:354-394 | SYNC_BEGIN, the replays of the cached types in order of type (as in SnapshotIs), SYNC_END with the next number; two numbers are used up and nothing else changes |
| BusCore.SnapshotIs | c_hook/framework/bus.c:354-394 | between the two there is one frame for each cached type and no other, in strictly increasing order of type, with the cached payload and number, bit 2 of its flags set and every other bit as cached |
| BusCore.Bus.WriterTake | c_hook/framework/bus.c:404-414 | takes the oldest frame together with the connection it is for, only if both exist |
| BusCore.Bus.CloseIfCurrent | c_hook/framework/bus.c:497-506 | forgets the connection only while it is the current one |
| BusCore.Bus.Expose | c_hook/framework/bus.c:563-570 | makes a greeted connection current and reports whether a stale one was replaced |
| BusProtocol.ShapeStep | c_hook/framework/bus.c:508-593 | a connection is current only between being exposed and given up, so exposing finds none to replace |
| BusProtocol.NumbersStep | c_hook/framework/bus.c:320-345 | numbers of queued, sent and handshake frames only increase and stay below the counter, rollback included |
| BusProtocol.NumberFresh | c_hook/framework/bus.c:331-336 | the next number belongs to no frame queued, sent or used in a handshake |
| BusProtocol.SendArrives | c_hook/framework/bus.c:294-345 | a send keeps, for every ordinary type, the attached connection ending with the last frame meant for it, or else the replay unless missed |
| BusProtocol.SnapshotArrives | c_hook/framework/bus.c:354-394 | a snapshot ends with the cached payload of every ordinary type, or with what is queued behind it |
| BusProtocol.MissedArrives | c_hook/framework/bus.c:385-390 | a handshake frame whose write failed takes away the replay of its own type and nothing else |
| BusProtocol.TakeArrives | c_hook/framework/bus.c:404-414 | handing a frame to the writer changes nothing of what arrives |
| BusProtocol.GivenStep | c_hook/framework/bus.c:294-560 | every number below the counter was given to exactly one frame, queued or of a handshake, and no step gives one twice |
| BusProtocol.HeldStep | c_hook/framework/bus.c:320-345 | every step keeps known what has the number of each cached frame |
| BusProtocol.OtherArrives | c_hook/framework/bus.c:399-593 | nor does any other step of writer and connector, unless it ends the connection |
| BusRuns.InvStep | c_hook/framework/bus.c:294-593 | every step of any thread keeps all invariants together |
| BusRuns.EveryRun | c_hook/framework/bus.c:294-593 | every state any interleaving can reach satisfies them |
| BusRuns.WhatArrives | c_hook/framework/bus.c:294-593 | on every run, broken connections included, a drained current connection ends, for every ordinary type, with the last frame meant for it, or else the replay unless its write failed |
| BusRuns.StickyConvergence | c_hook/framework/bus.c:294-593 | if a type was always sent sticky and its latest send was queued, a drained current connection never ends with another payload, ends with that one exactly if its replay was not missed or a frame of the type was still to be sent, and so always if no write failed |
| BusRuns.MissedReplay | c_hook/framework/bus.c:385-390 | a failed snapshot write costs a connection the payload exactly if the frame was the type's replay and nothing of the type is queued |
| BusRuns.MissedIsRight | c_hook/framework/bus.c:354-394 | the recorded missed types and meant frames are those of the run's events |
| BusRuns.WireGrammar | c_hook/framework/bus.c:541-570 | an unbroken connection carries HELLO, the snapshot in order, then only queued frames with increasing numbers |
| BusRules.GreetingOnWire | c_hook/framework/bus.c:541-570 | in every run, that is a frame of type 1 with the greeting text, an empty one of type 2, those replays, and an empty one of type 3 with the next number; then accepted frames |
| BusRules.BrokenExactlyWhen | c_hook/framework/bus.c:208-233 | a connection is recorded as broken exactly if some write to it failed |
| BusRules.Beginning | c_hook/framework/bus.c:87-124 | the bus starts empty, unconnected, and with the number 1 |
| BusRuns.WireDecodes | c_hook/framework/bus.c:208-233 | the bytes of a connection on which no write failed decode to exactly the frames sent, while numbers fit 32 bits |
| BusRuns.QueueIsFifo | c_hook/framework/bus.c:134-184 | accepted frames are freed once each and in order; what is not freed is in flight or queued |
| BusRuns.NoStaleConnection | c_hook/framework/bus.c:563-567 | the branch that closes a stale connection is dead in every run |
| BusRuns.HistoryIsRight | c_hook/framework/bus.c:294-345 | the recorded latest send and stickiness are those of the run's events |
| BusRuns.TurnedAway | c_hook/framework/bus.c:320-345 | a refused send, after any number of earlier ones, leaves what every attached connection ends with as it was, which is its payload exactly if it was before |
| BusRuns.GreetedAfterRefusal | c_hook/framework/bus.c:354-394 | after any refused sends of a type always sent sticky, a newly greeted connection ends with the latest payload exactly if the last queued frame of the type, if any, carries it too |
| BusNumbers.HeldIsRight | c_hook/framework/bus.c:320-345 | what is recorded as having each cached frame's number is what the run's events gave it to |
| BusNumbers.HolderIsRight | c_hook/framework/bus.c:320-345 | the holder carries that number; there is none exactly if the sticky send was refused and no number was given out since |
| BusNumbers.PlanIsSnapshot | c_hook/framework/bus.c:354-394 | what is recorded for a connection's snapshot is the state and the holders after the run that led to it |
| BusNumbers.PlanStaysSnapshot | c_hook/framework/bus.c:354-394 | and no later step changes that record |
| BusNumbers.SharesNumberExactlyWhen | c_hook/framework/bus.c:320-345 | the next accepted frame gets a cached frame's number exactly if that frame's send was refused and no number was given out since |
| BusNumbers.NumberSharedExactlyWhen | c_hook/framework/bus.c:208-394 | exactly which frames of an unbroken greeted connection share a number: HELLO, SYNC_BEGIN, another replay or a queued frame with a replay, when that frame was given the number of the cached one |
| BusNumbers.SharedWasQueued | c_hook/framework/bus.c:354-414 | a queued frame that shares a replay's number was queued when the snapshot was taken |
| BusNumbers.ReplaysDoNotRise | c_hook/framework/bus.c:354-394 | no replay is numbered above the SYNC_BEGIN before it |
| BusNumbers.RisesExactlyWhen | c_hook/framework/bus.c:354-414 | numbers rise on a connection exactly if its snapshot found nothing cached and all queued frames it carried are numbered behind the snapshot |
| BusNumbers.NumbersRiseExactlyWhen | c_hook/framework/bus.c:354-414 | on a drained connection that is exactly if the snapshot found nothing cached and nothing queued |
| BusFailures.Drain | c_hook/framework/bus.c:399-433 | every live connection can be drained and then has carried exactly its stream |
| BusFailures.RejectedSendDiverges | c_hook/framework/bus.c:320-345 | a complete run whose refused sticky send never reaches the live connection |
| BusFailures.LostReplayDiverges | c_hook/framework/bus.c:385-390 | a complete run at whose end a connection is exposed, current and drained without a frame of a sticky type whose latest send was queued |
| BusFailures.TwoFramesOneNumber | c_hook/framework/bus.c:320-394 | a complete run in which one connection carries a replay and a queued frame of another type under one number |
| BusFailures.ReplayUnderHello | c_hook/framework/bus.c:320-560 | a complete run in which a replay has the number of its connection's HELLO |
| BusFailures.SentTwice | c_hook/framework/bus.c:294-394 | a complete run, without a refusal, in which a frame is replayed and then sent under one number |
| CoverPackets.ScanBounds | c_hook/coverart/coverart_hook.c:878-959 | on any bytes only well-formed packets are accepted, without overlap, and at most 65536 bytes stay behind |
| CoverPackets.ReadyDefersOne | c_hook/coverart/coverart_hook.c:901-912 | at most one whole packet waits, and only for two bytes of the next |
| CoverPackets.ScanFramed | c_hook/coverart/coverart_hook.c:878-959 | on a stream of packets, each FF 5A and its own length, most significant byte first, the parser accepts exactly the ready ones and never skips a byte |
| CoverRules.LookRule | c_hook/coverart/coverart_hook.c:880-912 | which bytes make the parser take a packet, of which length, and which make it wait |
| CoverRules.TakenExactlyWhen | c_hook/coverart/coverart_hook.c:901-912 | a packet is ready exactly if its last byte has arrived and, unless it is the first in the buffer, two more |
| CoverRules.Resynchronises | c_hook/coverart/coverart_hook.c:882-886 | bytes without FF in front of a stream of packets are passed over and cost no packet |
| CoverStream.MyMemmem | c_hook/coverart/coverart_hook.c:185-200 | finds the first occurrence, or none exists |
| CoverStream.Find | c_hook/coverart/coverart_hook.c:185-200 | the position returned is an occurrence with none before it; no result means no occurrence |
| CoverStream.DoubledIsCap | c_hook/coverart/coverart_hook.c:858-866 | a doubled buffer size is 65536 times a power of two and exceeds a limit only if the need does |
| CoverStream.AbsorbAllOk | c_hook/coverart/coverart_hook.c:917-956 | collecting packets grows the image by no more than their size and keeps its buffer bounds |
| CoverStream.CollectMore | c_hook/coverart/coverart_hook.c:917-956 | what is collected is the joined payloads of the opening packet's session, from that packet on |
| CoverRules.PayloadRule | c_hook/coverart/coverart_hook.c:917-920 | a payload is what follows eleven bytes, up to the last byte |
| CoverRules.OpensRule | c_hook/coverart/coverart_hook.c:922-929 | a packet opens a session exactly if FF D8 lies within its payload |
| CoverRules.CollectedRule | c_hook/coverart/coverart_hook.c:917-956 | nothing is collected up to such a packet, and from it on the payloads of the packets with the same byte 7 |
| CoverRules.AbsorbRule | c_hook/coverart/coverart_hook.c:931-956 | a packet of the locked session is added, one of another is not, and beyond 32 MiB collection starts over |
| CoverRules.BufferRule | c_hook/coverart/coverart_hook.c:858-866 | buffers start at 64 KiB and double as often as needed and no more |
| CoverSlot.OverflowNeedsHugeRead | c_hook/coverart/coverart_hook.c:858-866 | the buffer is discarded exactly when it would exceed one megabyte, which takes a single read above 983040 bytes |
| CoverRules.OverflowRule | c_hook/coverart/coverart_hook.c:858-866 | which is 1048576 bytes, so never with reads of up to 983040 |
| CoverSlot.HandledGood | c_hook/coverart/coverart_hook.c:831-1032 | any call on any bytes leaves at most 65536 buffered bytes, at most 10 MiB collected, sound buffer sizes, and no image buffer without a valid packet |
| CoverSlot.CapNeverHit | c_hook/coverart/coverart_hook.c:933-944 | the branch for more than 32 MiB is dead |
| CoverSlot.ClosedIsUnused | c_hook/coverart/coverart_hook.c:1141-1179 | after close the descriptor number behaves as if never used |
| CoverSlot.StepInStep | c_hook/coverart/coverart_hook.c:857-968 | one read of a framed stream hands on exactly the packets that became ready |
| CoverSlot.NeverOutOfStep | c_hook/coverart/coverart_hook.c:857-1022 | over any cutting of such a stream into reads the packets come out once each and in order, the buffer holds exactly what follows them, and probing never gives the stream up |
| CoverRules.GivesUpAfter64 | c_hook/coverart/coverart_hook.c:1006-1022 | without a packet a descriptor is given up after exactly 64 reads |
| CoverRules.FilterRule | c_hook/coverart/coverart_hook.c:1048-1075 | reads of one given up are let through unread, unless it is the iAP2 endpoint |
| CoverSlot.ImagesAreExact | c_hook/coverart/coverart_hook.c:970-1031 | on any bytes, each image handed over is the first whole image in what the opening packet's session sent since the previous one |
| CoverRules.ImageRule | c_hook/coverart/coverart_hook.c:970-990 | an image runs from the first FF D8 to the end of the first FF D9 from there on |
| CoverRules.ImagesEnd | c_hook/coverart/coverart_hook.c:970-990 | there is none exactly if no FF D9 follows an FF D8 |
| CoverRules.DeliveredRule | c_hook/coverart/coverart_hook.c:985-1004 | collection starts over after an image and past 10 MiB without one |
| CoverHook.StreamState.Append | c_hook/coverart/coverart_hook.c:857-876 | the bytes go behind those waiting unless the buffer would outgrow its limit, which empties it |
| CoverHook.StreamState.TakePacket | c_hook/coverart/coverart_hook.c:917-956 | locks the session of a packet that opens an image and collects payloads of the locked session only |
| CoverHook.StreamState.Inspect | c_hook/coverart/coverart_hook.c:880-912 | decides sync, big-endian length, completeness and lookahead (as in LookRule) |
| CoverHook.StreamState.TakePackets | c_hook/coverart/coverart_hook.c:878-968 | takes exactly the scanned packets, never gives up midway, and removes what was consumed |
| CoverHook.StreamState.TakeImage | c_hook/coverart/coverart_hook.c:970-1004 | hands over the first whole image and starts over, also past the size limit |
| CoverHook.StreamState.CountProbe | c_hook/coverart/coverart_hook.c:1006-1022 | the 64th read without a valid packet releases the slot and marks the descriptor |
| CoverHook.StreamState.HandleStreamData | c_hook/coverart/coverart_hook.c:831-1032 | terminates on every input with the specified state, packets and image |
| CoverHook.StreamState.Read | c_hook/coverart/coverart_hook.c:1048-1075 | descriptors known to be of no interest are left alone |
| CoverHook.StreamState.Open | c_hook/coverart/coverart_hook.c:1102-1135 | only the iAP2 endpoint is marked for reading |
| CoverHook.StreamState.Close | c_hook/coverart/coverart_hook.c:1141-1179 | clears both marks and releases the slot with its buffers |
| CoverHook.StreamTable.GetStream | c_hook/coverart/coverart_hook.c:802-828 | a descriptor keeps its slot, else gets the first free one; no two share a slot; none only when all are held by others |
| CoverPublish.PublishIsAtomic | c_hook/coverart/coverart_hook.c:493-551 | with any faults, each file operation leaves the old or the new image visible, never going back, and the result says which remains |
| CoverPublish.PublishLeaves | c_hook/coverart/coverart_hook.c:493-551 | what a call leaves in both files and both links, after a success and after each fault |
| CoverPublish.NeverPartial | c_hook/coverart/coverart_hook.c:481-551 | after every file operation of any sequence of calls a reader finds nothing or one whole image, at the end the last one reported published |
| CoverPublish.SafeExactlyWhen | c_hook/coverart/coverart_hook.c:493-551 | from any whole state a call shows nothing partial exactly if the link does not lead to the slot it rewrites |
| CoverPublish.RestartSafeExactlyWhen | c_hook/coverart/coverart_hook.c:145-157 | after a restart that is exactly if slot 0 was in use or nothing was published |
| CoverPublish.RestartTruncates | c_hook/coverart/coverart_hook.c:145-157 | one success and a restart suffice for the next call to expose a partial file |
| CoverPublish.Publisher.WritePngFile | c_hook/coverart/coverart_hook.c:493-551 | performs exactly these operations, with these intermediate disks, slot and result |
| CoverPublish.Publisher.SwapLink | c_hook/coverart/coverart_hook.c:531-550 | the link operations alone, with every intermediate disk and fault |
| CoverPublish.DoFreesOnce | c_hook/coverart/coverart_hook.c:734-799 | every step of reader or worker keeps each buffer pending, worked on or freed, and in one of these places once |
| CoverPublish.DoKeepsOrder | c_hook/coverart/coverart_hook.c:734-799 | every step keeps images handled in order and the newest never dropped |
| CoverPublish.WorkerRun | c_hook/coverart/coverart_hook.c:734-799 | once queue and worker are idle the last image handled is the last handed over and every buffer was freed once |
| CoverPublish.Worker.EnqueueImage | c_hook/coverart/coverart_hook.c:781-799 | replaces and frees an older pending image, or handles it on the spot without a worker |
| CoverPublish.Worker.TakePending | c_hook/coverart/coverart_hook.c:740-752 | takes the pending image out of the queue |
| CoverPublish.Worker.FinishImage | c_hook/coverart/coverart_hook.c:754-759 | frees the image once handled |
| Engine.InvOfRun | c_render/main.c:131-286 | in every run a waiting maneuver means no rest, pushing means a next one, and nothing set aside is stranded |
| Engine.ComesToRest | c_render/main.c:217-286 | left alone the engine rests after exactly the needed number of finished animations, at most three, with the newest maneuver and what was set aside shown |
| Engine.NewestStep | c_render/main.c:131-286 | in any state an event brings its maneuver, is a start that cuts off a push, or keeps the newest maneuver |
| Engine.LatestWinsExactlyWhen | c_render/main.c:131-286 | in every run the maneuver brought last is the newest one exactly if no start has cut off a push since |
| Engine.SettlesExactlyWhen | c_render/main.c:131-286 | left alone for three finished animations every run rests, showing the maneuver brought last exactly under that condition |
| Engine.LatestWins | c_render/main.c:131-286 | if no maneuver is shown between a preload and its start, the maneuver brought last is pending, else next, else current, and a next one exists exactly while pushing |
| Engine.OrderlyRunsSettle | c_render/main.c:131-286 | such a run shows the maneuver brought last after at most three finished animations |
| Engine.StartKeepsExactlyWhen | c_render/main.c:188-196 | a start keeps the newest maneuver exactly unless it cuts off the push that brings it in |
| Engine.DisorderlyStartLoses | c_render/main.c:131-214 | preload, show, start: the shown maneuver never appears |
| Engine.StartInSameBatchIsIgnored | c_render/main.c:445-566 | a batch whose last maneuver is a preload leaves it current, at rest and hidden, wherever a start stands in the batch |
| Engine.TurnExtendsRun | c_render/main.c:445-569 | turns of the main loop are runs of the engine, in the order immediate commands, last maneuver, tick |
| EngineRules.Beginning | c_render/main.c:60-110 | at first nothing is shown, in perspective, with the bar graph off |
| EngineRules.StartSlidesIn | c_render/main.c:188-214 | with a preload waiting, in any run, a start slides the current maneuver in, clears the preload and reveals what was set aside; it rests after exactly one finished animation if nothing else waits and three otherwise |
| EngineRules.StartWithoutPreload | c_render/main.c:188-192 | without one it does nothing |
| EngineRules.ShowBehindStart | c_render/main.c:131-214 | a maneuver shown right behind a start is pending and not next, is pushed in after that animation, and rests after three |
| EngineRules.ColdShow | c_render/main.c:132-147 | the first maneuver is current at once and slides in |
| EngineRules.ShowAtRest | c_render/main.c:157-166 | at rest a maneuver is next and pushed in, the current one staying and the bar graph going off |
| EngineRules.ShowWhileMoving | c_render/main.c:149-155 | while anything moves it waits, in place of one that already does |
| EngineRules.ShowSetsAside | c_render/main.c:544-566 | flag bit 0 sets the perspective aside and bit 1 the bar graph, clamped; nothing else is touched |
| EngineRules.ShownWithExtras | c_render/main.c:131-286 | at rest again, what the flags named is shown with the maneuver |
| EngineRules.PreloadReplacesAll | c_render/main.c:170-186 | a preload drops everything shown or waiting, rests, and sets both aside whatever its flags |
| EngineRules.SetAtOnce | c_render/main.c:495-541 | perspective and bar graph commands act at once and on nothing else |
| EngineRules.AnimationEnds | c_render/main.c:217-286 | what the end of an animation does in each phase, field by field |
| EngineRules.LastIs | c_render/main.c:456-542 | of a batch's maneuvers only the last counts |
| EngineRules.StartAndShow | c_render/main.c:456-566 | a start and a maneuver in one batch are carried out in that order, whichever came first |
| Engine.CrEngine.Apply | c_render/main.c:131-167 | cold start, queueing while in transition, or a push |
| Engine.CrEngine.PreloadState | c_render/main.c:170-186 | replaces everything shown or waiting, at rest |
| Engine.CrEngine.StartPreloadedAnimation | c_render/main.c:188-214 | a pending preload slides in at once, what was set aside becoming visible (as in StartSlidesIn); without one nothing happens |
| Engine.CrEngine.EngineTick | c_render/main.c:217-286 | the three-phase transition on a finished animation |
| Engine.CrEngine.Drain | c_render/main.c:456-542 | immediate commands take effect in order and only the last maneuver is kept |
| Engine.CrEngine.Bring | c_render/main.c:544-566 | sets aside what rides along, then applies or preloads |
| Engine.CrEngine.MainTurn | c_render/main.c:445-569 | one turn is its batch, its last maneuver and a tick |
| Iap2.TlvRoundTrip | c_hook/framework/iap2_protocol.c:46-57 | a built parameter reads back exactly if its value has at most 65531 bytes |
| Iap2Rules.TlvBytes | c_hook/framework/iap2_protocol.c:143-156 | a parameter is its whole length, its id, most significant bytes first, and its value |
| Iap2Rules.TlvRead | c_hook/framework/iap2_protocol.c:72-83 | one is read exactly if its length is at least 4 and lies within the bytes |
| Iap2.ListRoundTrip | c_hook/framework/iap2_protocol.c:59-83 | any list of such parameters is yielded back complete and in order |
| Iap2.FrameRoundTrip | c_hook/framework/iap2_protocol.c:126-141 | a built frame is found with its id and payload exactly if the payload has at most 65529 bytes |
| Iap2Rules.FrameBytes | c_hook/framework/iap2_protocol.c:126-141 | a frame is 40 40, its whole length, the message id and the payload |
| Iap2Rules.FrameFound | c_hook/framework/iap2_protocol.c:11-30 | what counts as one, by its bytes |
| Iap2.MessageRoundTrip | c_hook/framework/iap2_protocol.c:59-156 | parameters totalling at most 65529 bytes come back out of their frame, and a search finds the first match of the list |
| Iap2.OffsetIsRight | c_hook/framework/iap2_protocol.c:107-124 | the offset of the first match leads to that parameter, on any bytes |
| Iap2.TlvIter.Next | c_hook/framework/iap2_protocol.c:72-83 | yields the remaining parameters one by one and stops at the first malformed one |
| Iap2.FindTlv | c_hook/framework/iap2_protocol.c:85-105 | on any bytes finds the first parameter with the id that the iterator would yield |
| Iap2Rules.FirstIs | c_hook/framework/iap2_protocol.c:85-105 | the match is the first in the list with that id |
| Iap2Rules.FirstIsNone | c_hook/framework/iap2_protocol.c:85-105 | and there is none exactly if no parameter has it |
| Iap2.FindTlvOffset | c_hook/framework/iap2_protocol.c:107-124 | returns that parameter's offset and writes its length, or returns 0 and writes nothing if there is none |
| Iap2.ZeroExactlyWhen | c_hook/framework/iap2_protocol.c:107-124 | the offset is 0 exactly if no parameter has the id or the first one has |
| Iap2.FindFrameAt | c_hook/framework/iap2_protocol.c:11-30 | finds the first complete frame at or after the start, or none exists |
| Iap2.BuildTlv | c_hook/framework/iap2_protocol.c:143-156 | writes exactly the parameter's bytes, or nothing if there is no room |
| Iap2.BuildTlvU16 | c_hook/framework/iap2_protocol.c:158-166 | writes the parameter of a 16-bit value |
| Iap2.BuildFrame | c_hook/framework/iap2_protocol.c:126-141 | writes exactly the frame's bytes, or nothing if there is no room |
| Iap2.CksumNeg | c_hook/framework/iap2_protocol.c:194-201 | the checksum makes its bytes sum to a multiple of 256 |
| Iap2Rules.SumRule | c_hook/framework/iap2_protocol.c:194-201 | the sum is that of all bytes |
| Iap2.PatchLinkHeader | c_hook/framework/iap2_protocol.c:217-249 | rewrites length and last byte of a prefix with nonzero length so that it sums to a multiple of 256, and nothing else |
| Iap2.InjectedIsWellFormed | c_hook/framework/hook_framework.c:385-412 | over a nine-byte prefix the parsed length is the packet's exactly if the stored one was nonzero and the packet fits 65535; header and frame sum to 0; the frame is unchanged |
| Iap2Rules.PacketBytes | c_hook/framework/hook_framework.c:385-412 | a packet within 65535 bytes over such a prefix begins FF 5A and its own length, keeps the next four bytes, carries the frame, and both parts sum to a multiple of 256 |
| Iap2Rules.HeaderRead | c_hook/framework/iap2_protocol.c:203-215 | which bytes a link header's fields are |
| Iap2.Assemble | c_hook/framework/hook_framework.c:391-409 | prefix, frame and checksum in one buffer with the prefix patched |
| Iap2.Injector.InjectFrame | c_hook/framework/hook_framework.c:370-431 | sends one such packet or the bare frame, reports the transport's failure, and always leaves the re-entrance flag clear |
| Iap2.Injector.InjectMessage | c_hook/framework/hook_framework.c:433-438 | builds and sends a message of at most 506 payload bytes and refuses longer ones |
| ClassFile.ClassRoundTrip | tools/build_release.py:154-197 | the bytes of a well-formed class file determine its header, pool and rest |
| ClassRules.WidthRule | tools/build_release.py:181-191 | how many bytes follow each tag, as section 4.4 of the JVM Specification has them |
| ClassRules.SlotsRule | tools/build_release.py:183-184 | only eight-byte constants take up two indices |
| ClassRules.EntryRule | tools/build_release.py:163-191 | a text is the byte 1, a two-byte length and its bytes; any other entry is its tag and its bytes |
| ClassRules.FileRule | tools/build_release.py:154-193 | magic CA FE BA BE, version, two-byte count, the entries one behind the other from byte 10 on, and the rest |
| ClassRules.CountRule | tools/build_release.py:160-192 | the count is one more than the entries, eight-byte constants counting twice |
| ClassFile.RewritingKeepsStructure | tools/build_release.py:162-194 | every entry keeps its index and tag, double-slot entries included; entries of other kinds, not UTF-8 or beginning with neither prefix keep their bytes, the rest get the new id behind the prefix they had; all else is unchanged |
| ClassRules.RewriteRule | tools/build_release.py:173-178 | UTF-8 text beginning "2026-" becomes the id, and beginning "Build: 2026-" those words and the id |
| ClassRules.Utf8ExactlyWhen | tools/build_release.py:169-172 | exactly the encodings of Unicode scalar values count as UTF-8 |
| ClassFile.StableExactlyWhen | tools/build_release.py:169-178 | rewriting twice is rewriting once for every constant exactly if the new id is not itself of the form "Build: 2026-" |
| ClassFile.PatchEntry | tools/build_release.py:163-193 | copies one entry, rewritten if it matches, with its corrected length and its number of slots |
| ClassFile.PatchClassUtf8 | tools/build_release.py:154-197 | a well-formed file yields its own rewriting, or is refused exactly if that would change nothing; success needs the class magic |
| ClassFile.PatchedParses | tools/build_release.py:154-197 | both the file and its rewriting parse back |
| AmapMeta.NumbersCount | tools/apply_v38_amap_overlay.py:84-116 | the generation counts renewals and the update number counts updates, each skipping 0 on wrapping |
| AmapMeta.HeadChangesRenew | tools/apply_v38_amap_overlay.py:93-143 | the head changes only together with the generation |
| AmapMeta.SameGenerationSameHead | tools/apply_v38_amap_overlay.py:84-173 | two snapshots share a generation exactly if the renewals between them are a multiple of 2^32 - 1, and if fewer they share the head |
| AmapMeta.WrapSharesGeneration | tools/apply_v38_amap_overlay.py:84-91 | once round the counter two different heads do share a generation |
| AmapMeta.HeadAndDistance | tools/apply_v38_amap_overlay.py:115-143 | head and freshness are those of the last list-carrying update and the distances since |
| AmapMeta.ListRule | tools/apply_v38_amap_overlay.py:122-134 | a list's first entry becomes the head, 65535 if there is none; a changed head starts a generation; freshness is whether a distance came along |
| AmapMeta.DistanceRule | tools/apply_v38_amap_overlay.py:115-143 | without a list the head stays and a distance makes it fresh |
| AmapMeta.ClearRule | tools/apply_v38_amap_overlay.py:93-99 | clearing takes head, freshness and alignment away and starts a generation |
| AmapMeta.PublishRule | tools/apply_v38_amap_overlay.py:165-174 | publishing looks at the cache again and shows no head as -1 |
| AmapMeta.PublishedAlignment | tools/apply_v38_amap_overlay.py:165-174 | aligned is published exactly with a head, a distance for it and a cached maneuver that has a type; generation is never 0, the update number only before the first update |
| AmapMeta.RouteMeta.NoteRouteUpdate | tools/apply_v38_amap_overlay.py:115-143 | one accepted update as a single step, a hard clear overriding its contents |
| AmapMeta.RouteMeta.RefreshAlignment | tools/apply_v38_amap_overlay.py:101-111 | recomputes alignment from head, distance and cache alone |
| AmapMeta.RouteMeta.PublishSnapshot | tools/apply_v38_amap_overlay.py:165-174 | publishes the refreshed metadata |

## Left out

- JPEG decoding, resizing, EXIF handling, PNG encoding and every other decoder of the image library.
- PNG chunk parsing, palettes, transparency, and sample depths of 1, 2, 4 and 16 bits with their expansion; rows are handed on as sequences rather than written into one output array.
- Inflate.ZBuf.ZExpand: a growable buffer needs at least one byte, because doubling an empty one does not terminate in the source; the callers' initial sizes are positive.
- PngFilter.CreateImageRaw: PngImage.ReadPass and PngImage.CreateInterlaced like it cover whole-byte samples without depth or alpha expansion; the overflow guards on image dimensions and allocation failure are not modelled.
- Adam7.Deinterlace: stands for the scattering alone; its combination with unfiltering is PngImage.CreateInterlaced.
- BusProtocol.OtherArrives: a frame write is one step, because the socket-write mutex is held across it; a write either completes or breaks its connection. What part of a frame a failing write leaves behind is not modelled.
- BusRuns.WireDecodes: says nothing of a connection on which a write failed; BusRuns.StickyConvergence and BusRuns.WhatArrives speak there of the frames written whole.
- BusCore.Bus.BusSend: allocation always succeeds and the counter is unbounded; 32-bit numbers enter only where bytes are decoded. Shutdown, the timer thread, inbound dispatch and text builders are not part of this model.
- BusProtocol.ShapeStep: connections are numbered afresh; reuse of descriptor numbers is not modelled.
- CoverSlot.HandledGood: memory allocation always succeeds; the slot lock makes a call one step, and the race between close and a waiting call on the same slot is not modelled.
- CoverPublish.PublishIsAtomic: directory creation, decoding and duplicate detection before publication are not modelled; one write call stands for the file's contents.
- Engine.CrEngine.Drain: hide, screenshot, debug and shutdown commands leave the engine alone; what else they do is not modelled.
- Engine.ComesToRest: animations are known only by being finished; fading, masks, drawing and display visibility are not modelled, and a maneuver is an opaque value.
- Iap2.BuildTlvU16: the one-byte and string variants follow the same shape and are not repeated.
- ClassFile.PatchEntry: says nothing of an entry that the data cuts short.
- ClassFile.PatchClassUtf8: for files whose pool is not well formed only the magic check is stated, and ids long enough to overflow a constant are refused; build ids are byte strings.
- AmapMeta.RouteMeta.RefreshAlignment: the slot cache is a map handed in with each call, because the file that keeps it is not part of this model.
- Renderer drawing, platform and window code, the renderer's TCP server, logging, and the Java side.
