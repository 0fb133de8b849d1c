# Verified model of Judica's hard core

This project models the parts of Judica in which most can go wrong, and proves what they promise.

* **The icon writer** (`Words`, `Crc32`, `CrcTheory`, `Zlib`, `Png`, `Painter`). A PNG file is written byte by byte: a
  table-driven CRC-32, Adler-32, stored deflate blocks, chunk framing, scanlines, a clipped rectangle painter. A decoder
  written from RFC 2083, RFC 1950 and RFC 1951 reads back exactly the pixels drawn; the CRC is shown to be the remainder
  of a polynomial division and to detect every burst of 32 bits.
* **The streaming adapters** (`Lines`, `AdapterTypes`, `OpenAiStream`, `AnthropicStream`, `StreamResult`, `Collecting`).
  Network fragments of any size are buffered, cut into lines, and reassembled into text, tool calls and usage. What is
  yielded is a function of the text received, not of how it was cut; the exact limit of that claim is proved as well.
* **The deliberation protocol** (`MessageBus`, `Deliberation`, `HumanGates`, `SharedFacts`). Bounded inboxes against the
  full history, the debate round and the confidence score, human gates over every run of creations, resolutions,
  time-outs, evictions and sweeps, and votes on shared facts.
* **Access decisions** (`Permissions`, `Acl`). The implication fixpoint is the least closed set; the flat string encoding
  of document access decides exactly what the structured record says.

`Wrappers` and `Sequences` hold what several of these modules share.

Code that updates variables, buffers or fields is modelled by methods and classes with loops, proved against functions
of the input or of the old state; the main results are lemmas about those functions, for all inputs or all runs.

How outside things enter the model: `JSON.parse` and the field accesses on its result are arbitrary functions from a
payload to an optional event (what the accesses deliver before one of them throws); random ids and time stamps are
arguments; replies of models and failures of calls are arbitrary inputs; lower-casing and the reply-matching regular
expression are arbitrary functions, of which one result uses that the empty text has no structured form and is its own
lower case; a drawing callback is any function on the pixel array that keeps its length. A
JavaScript `Map` or `Set` is its keys in insertion order, with a map where entries matter. The 32-bit integer operators
work on vectors of 32 bits, and what they denote as unsigned numbers is proved, not assumed.

Where the code and its comments disagree, the model follows the code:

* `src/adapters/types.ts:124-126` says that a stream iterated after `collect()` yields nothing; the code replays the
  collected result (`src/adapters/types.ts:136-142`), without the finish reason.
* `src/adapters/types.ts:127` says that `collect()` is idempotent. After a collect that failed with an adapter error or an
  incomplete stream, the next one reports an empty success: `StreamResult.FailureIsForgotten` is such an input, and
  `StreamResult.CollectTwice` says, before any call, exactly when the second result repeats the first.
* `src/auth/permissions.ts:5` and `src/auth/permissions.ts:52-53` say that every `MANAGE_*` permission implies others and that
  `READ_*` are never stored; the map has no entry for `MANAGE_LLMS` and `MANAGE_WORKFLOWS`, and stored `READ_*` strings are
  accepted as grants.

Properties that turned out not to hold in general, with the condition under which they do:

* The icon writer emits no deflate block for empty input, and does not enforce PNG's limit of 2^31 - 1 on chunk lengths:
  `Zlib.DecompressCompress` and `Png.DecodeEncode` give the exact conditions, `Png.TooLargeForPng` a size beyond that limit.
* A tool-call fragment without an index joins an existing call when the count of calls so far is itself an index in use:
  `OpenAiStream.MissingIndexCanCollide` and `OpenAiStream.MissingIndexStartsCall`.
* The answer of the Anthropic parser depends on the fragmentation once the text exceeds the buffer limit:
  `AnthropicStream.CutMattersBeyondLimit`; every way of cutting is read to the end exactly up to that limit:
  `AnthropicStream.EveryCutAccepted`.
* The reported confidence score can be negative when conflicts outnumber extracted facts:
  `Deliberation.ConfidenceCanBeNegative` is such a run, and `Deliberation.ConfidenceSafeForAnyDebate` the exact bound.

## Model

| member | source | states |
|---|---|---|
| Png.DecodeEncode | extensions/chrome/generate-icons.js:81-119 | The writer refuses exactly the sizes whose image data does not fit an unsigned 32-bit length; a decoder for RFC 2083 returns the drawn pixels from its output if and only if the image is not empty and the length is one PNG allows, and reports which of the two failed otherwise. |
| Png.TooLargeForPng | extensions/chrome/generate-icons.js:81-119 | A size that is written but exceeds the length PNG allows. |
| Png.MakePng | extensions/chrome/generate-icons.js:81-119 | Background, any drawing callback defined on it, scanlines, header and chunks together produce the file of the drawn pixels, or the range error. |
| Png.ReadWriteChunks | extensions/chrome/generate-icons.js:44-51 | For every list of chunks, reading back what was framed gives the list, or the length error if some chunk is longer than PNG allows. |
| Png.ReadFrame | extensions/chrome/generate-icons.js:44-51 | A frame with any length and checksum field is accepted if and only if the length is allowed and the field is the CRC of type and data. |
| Png.CorruptChunkRejected | extensions/chrome/generate-icons.js:44-51 | A chunk in which up to four neighbouring bytes of type or data were replaced is always rejected. |
| Png.WriteChunk | extensions/chrome/generate-icons.js:44-51 | Length, type, data and CRC in that order, or the range error for data longer than 2^32 - 1, with the cached CRC table kept intact. |
| Png.UnfilterRows | extensions/chrome/generate-icons.js:96-104 | Taking the filter bytes out of the scanlines gives back the pixels. |
| Png.BuildScanlines | extensions/chrome/generate-icons.js:96-104 | The scanline buffer holds exactly the filtered rows of the pixel array. |
| Png.WriteRows | extensions/chrome/generate-icons.js:98-104 | The loop over all rows fills the buffer with the filtered rows, from first byte to last. |
| Png.WriteRow | extensions/chrome/generate-icons.js:98-104 | Each turn of the row loop writes one row more of the filtered image and leaves one row less to come. |
| Png.CopyRow | extensions/chrome/generate-icons.js:98-104 | One pass of the row loop appends a zero filter byte and the row, and keeps what was written before. |
| Png.FillBackground | extensions/chrome/generate-icons.js:85-91 | Every pixel becomes the background colour. |
| Png.RowsLength | extensions/chrome/generate-icons.js:97 | The scanlines have size * (1 + 4 * size) bytes. |
| Png.FileLayout | extensions/chrome/generate-icons.js:106-118 | A file is, byte for byte, the PNG signature, an "IHDR" chunk with the header, an "IDAT" chunk with the zlib stream of the rows, and an empty "IEND" chunk. |
| Png.ChunkLayout | extensions/chrome/generate-icons.js:44-51 | Where length, type, data and CRC of a chunk are, both numbers highest byte first. |
| Png.HeaderLayout | extensions/chrome/generate-icons.js:106-111 | The header is the size twice, highest byte first, and 8, 6, 0, 0, 0. |
| Png.RowLayout | extensions/chrome/generate-icons.js:98-104 | Row y starts with a zero byte at (1 + w) * y, and byte x after it is byte w * y + x of the pixels. |
| Zlib.DecompressCompress | extensions/chrome/generate-icons.js:59-79 | Decompressing by RFC 1950 and RFC 1951 gives back every non-empty input; on the empty input the stream holds no block and is rejected. |
| Zlib.InflateStored | extensions/chrome/generate-icons.js:62-71 | The block stream of a non-empty input inflates to the input and leaves the bytes after it. |
| Zlib.CompressLength | extensions/chrome/generate-icons.js:59-79 | The zlib stream of n bytes has n + 5 * ceil(n / 65535) + 6 bytes. |
| Zlib.DeflateRaw | extensions/chrome/generate-icons.js:59-79 | The block loop and the in-place assembly of header, blocks and checksum produce exactly that stream. |
| Zlib.StreamEnds | extensions/chrome/generate-icons.js:73-78 | A stream starts with 0x78 0x01; its last four bytes are the weighted sum plus the length, and the byte sum plus 1, each modulo 65521 and high byte first. |
| Zlib.StreamOfOneTwo | extensions/chrome/generate-icons.js:53-79 | All thirteen bytes of the stream of the bytes 1 and 2. |
| Zlib.WriteHeader | extensions/chrome/generate-icons.js:66-69 | The five header bytes, by value: the final flag, then the length and 65535 minus the length, each low byte first. |
| Zlib.Adler32 | extensions/chrome/generate-icons.js:53-57 | The loop with two running sums, and the signed shift-or read as unsigned, give the closed form of section 2.2 of RFC 1950: the upper half is the weighted sum plus the length, the lower half the byte sum plus 1, both modulo 65521. |
| Zlib.SumsAppend | extensions/chrome/generate-icons.js:53-57 | How the plain and the position-weighted byte sums grow with one more byte. |
| Words.JoinHalves | extensions/chrome/generate-icons.js:56 | (hi << 16) \| lo, taken as unsigned, is hi * 65536 + lo. |
| Words.ComplementHalf | extensions/chrome/generate-icons.js:69 | ~n & 0xffff is 65535 - n. |
| Words.ReadWriteU32BE | extensions/chrome/generate-icons.js:106-108 | Big-endian 32-bit fields read back as written. |
| Words.ReadWriteU16LE | extensions/chrome/generate-icons.js:68-69 | Little-endian 16-bit fields read back as written. |
| Words.HighByteFirst | extensions/chrome/generate-icons.js:106-108 | The four bytes of a big-endian field, as its upper and lower halves. |
| Words.LowByteFirst | extensions/chrome/generate-icons.js:68-69 | The two bytes of a little-endian field. |
| Crc32.Checksum.Compute | extensions/chrome/generate-icons.js:26-32 | The table-driven loop, whether it builds the table or finds it cached, computes the bit-at-a-time CRC of section 3.4 of RFC 2083. |
| Crc32.BuildTable | extensions/chrome/generate-icons.js:34-42 | Every table entry is the register after eight shifts of its index. |
| Crc32.TableEntry | extensions/chrome/generate-icons.js:36-39 | The inner loop computes the register after eight shifts of the index. |
| Crc32.MagicConstant | extensions/chrome/generate-icons.js:38 | The constant 0xedb88320 is the polynomial listed in RFC 2083, reflected and without its leading term. |
| Crc32.TableStep | extensions/chrome/generate-icons.js:30 | One table lookup is eight steps of the register with eight data bits. |
| Crc32.StepsLinear | extensions/chrome/generate-icons.js:38 | Shifting the register is linear over exclusive or. |
| Crc32.FeedAhead | extensions/chrome/generate-icons.js:30 | Up to 32 data bits can be xored into the register before it is shifted instead of one by one. |
| CrcTheory.CrcIsRemainder | extensions/chrome/generate-icons.js:26-32 | The checksum is the complement of the remainder of the message times x^32, its first 32 terms inverted, divided by the generator polynomial. |
| CrcTheory.DivisionExists | extensions/chrome/generate-icons.js:26-42 | Schoolbook division over GF(2) really divides: dividend = quotient * generator + remainder. |
| CrcTheory.DivisionUnique | extensions/chrome/generate-icons.js:26-42 | Every such decomposition has that remainder. |
| CrcTheory.RegisterDivides | extensions/chrome/generate-icons.js:26-42 | For any register and data, feeding bits computes the remainder of what the register and the data stand for. |
| CrcTheory.BurstDetected | extensions/chrome/generate-icons.js:26-42 | Messages of equal length that differ only within some 32 consecutive bits, at any bit position, have different checksums. |
| CrcTheory.BytesDetected | extensions/chrome/generate-icons.js:26-42 | Replacing up to four neighbouring bytes changes the checksum. |
| CrcTheory.FeedInjective | extensions/chrome/generate-icons.js:30 | Different register states stay different under the same data. |
| Painter.FillRect | extensions/chrome/generate-icons.js:129-133 | For any integer rectangle, negative or oversized, exactly the canvas pixels it covers get its colour, and nothing else changes; `Painter.PaintedPixel` says which bytes those are. |
| Painter.PaintedPixel | extensions/chrome/generate-icons.js:123-133 | Pixel (px, py) is the four bytes from 4 * (py * size + px) on; painting a rectangle makes them red, green, blue and opacity, in this order, if the point is inside, and leaves them otherwise. |
| Painter.SetPixel | extensions/chrome/generate-icons.js:123-127 | A pixel inside the canvas gets the colour and the opacity, full by default; a point outside changes nothing. |
| Painter.FillRects | extensions/chrome/generate-icons.js:138-152 | Filling any list of rectangles one after the other paints them in that order. |
| Painter.PaintAllShowsTopmost | extensions/chrome/generate-icons.js:129-152 | After any sequence of rectangles every pixel shows the last one that covers it, otherwise what was there before. |
| Painter.MakeIcon | extensions/chrome/generate-icons.js:81-152 | The PNG writer, given a glyph of rectangles, writes the file of the background with the rectangles painted over it. |
| Painter.IconShowsTopmost | extensions/chrome/generate-icons.js:81-152 | The file of a picture of rectangles decodes to an image in which the four bytes of every pixel are the channels of the topmost rectangle, or of the background. |
| Lines.LineBreakStep | src/adapters/openaiCompatible.adapter.ts:197-201 | Cutting at the first match of \r?\n and trimming takes the same line and leaves the same rest as cutting at the first LF. |
| Lines.SearchMeetsIndexOf | src/adapters/openaiCompatible.adapter.ts:197 | The pattern search finds the first LF, or the CR just before it. |
| Lines.CarryTail | src/adapters/openaiCompatible.adapter.ts:194-202 | Carrying the unterminated tail over to the next fragment neither loses nor changes a line, wherever the text was cut. |
| Lines.ReadWrittenLines | src/adapters/openaiCompatible.adapter.ts:196-202 | Lines without LF are read back trimmed whichever mix of LF and CR LF ended them, and the unterminated rest stays in the buffer. |
| Lines.TrimExact | src/adapters/openaiCompatible.adapter.ts:198 | Trimming takes the white space off both ends of a line, and nothing else. |
| AdapterTypes.EmittedCalls | src/adapters/openaiCompatible.adapter.ts:206-210 | A call is emitted with its id, its name, and its argument text as parsed, or the empty object if that fails. |
| OpenAiStream.ParseSseStream | src/adapters/openaiCompatible.adapter.ts:179-250 | The chunks yielded are a function of the concatenated text alone; a missing body yields nothing. |
| OpenAiStream.DrainLines | src/adapters/openaiCompatible.adapter.ts:195-243 | The inner loop handles every terminated line, however it ends, and leaves the tail in the buffer. |
| OpenAiStream.HandleLine | src/adapters/openaiCompatible.adapter.ts:203-242 | One line emits and updates exactly what it means after the items before it; other lines and malformed payloads change nothing. |
| OpenAiStream.Accumulate | src/adapters/openaiCompatible.adapter.ts:223-234 | The pending map always holds, in order of first appearance, each call with its last id and name and its concatenated arguments. |
| OpenAiStream.AddFragment | src/adapters/openaiCompatible.adapter.ts:224-234 | One fragment is merged into its call, which is created if need be; a missing index is the count of calls so far. |
| OpenAiStream.FlushCalls | src/adapters/openaiCompatible.adapter.ts:206-210 | At [DONE] each pending call is emitted once, in order, with parsed arguments or the empty object. |
| OpenAiStream.OneCallPerIndex | src/adapters/openaiCompatible.adapter.ts:224-229 | The calls are one per index that occurs, none twice. |
| OpenAiStream.FirstAppearanceOrder | src/adapters/openaiCompatible.adapter.ts:206-229 | The calls are in the order in which their indexes first appear. |
| OpenAiStream.ArgumentsInOrder | src/adapters/openaiCompatible.adapter.ts:233 | The argument text of a call is the argument texts of the fragments at its positions, joined in the order of the stream. |
| OpenAiStream.LastIdWins | src/adapters/openaiCompatible.adapter.ts:231 | The id of a call is the one given at the last position of the call where it is not empty. |
| OpenAiStream.LastNameWins | src/adapters/openaiCompatible.adapter.ts:232 | The same for its name. |
| OpenAiStream.NothingGiven | src/adapters/openaiCompatible.adapter.ts:229-232 | A call that was never given an id or a name has the empty one. |
| OpenAiStream.DataLineReachesParser | src/adapters/openaiCompatible.adapter.ts:197-216 | For any payload without white space at its ends: whatever white space is around it and whichever line ending follows, a data line is the done mark if the payload is [DONE], and otherwise the event of exactly this payload, if it has one. |
| OpenAiStream.OtherLineHasNoItem | src/adapters/openaiCompatible.adapter.ts:203 | Any other line that is not blank carries nothing. |
| OpenAiStream.BlankLineHasNoItem | src/adapters/openaiCompatible.adapter.ts:203 | Nor does a blank one. |
| OpenAiStream.StreamedCall | src/adapters/openaiCompatible.adapter.ts:179-250 | From the text to the answer: a tool call sent in any number of data lines, then [DONE], yields one tool call with its id, its name and the parse of its joined arguments, and the end. |
| OpenAiStream.StreamedText | src/adapters/openaiCompatible.adapter.ts:179-250 | From the text to the answer: any number of data lines with text yield their texts in order, and the end. |
| OpenAiStream.SwapNeighbours | src/adapters/openaiCompatible.adapter.ts:224-234 | Swapping neighbouring fragments of different calls leaves every call as it was; the order of calls is kept if and only if one of the two had appeared before. |
| OpenAiStream.InterleavingIrrelevant | src/adapters/openaiCompatible.adapter.ts:185-234 | First appearances and the fragments of each call decide what is emitted, however calls are interleaved. |
| OpenAiStream.MissingIndexStartsCall | src/adapters/openaiCompatible.adapter.ts:226 | A fragment without an index starts its own call if and only if the count of calls is not an index in use. |
| OpenAiStream.MissingIndexCanCollide | src/adapters/openaiCompatible.adapter.ts:226 | An input on which a fragment without an index is merged into another call. |
| OpenAiStream.OneDoneOutput | src/adapters/openaiCompatible.adapter.ts:203-242 | A stream whose one [DONE] comes last yields its text, one chunk per call, then the last usage. |
| OpenAiStream.WithoutDoneOnlyText | src/adapters/openaiCompatible.adapter.ts:205-216 | Without a terminated [DONE] line no tool call and no usage is ever emitted. |
| OpenAiStream.UnterminatedTailIgnored | src/adapters/openaiCompatible.adapter.ts:197-202 | What follows the last line terminator is never looked at. |
| AnthropicStream.ParseStream | src/adapters/anthropic.adapter.ts:142-246 | The chunks yielded are a function of the text of the fragments read, which are all fragments before the first that overflows the buffer; a missing body yields nothing. |
| AnthropicStream.DrainLines | src/adapters/anthropic.adapter.ts:169-234 | The inner loop handles every terminated line and leaves the tail in the buffer. |
| AnthropicStream.DataLineReachesParser | src/adapters/anthropic.adapter.ts:171-179 | For any payload without white space at its ends: whatever white space is around it and whichever line ending follows, the only event of a data line is the event of exactly this payload, if it has one. |
| AnthropicStream.OtherLineHasNoEvent | src/adapters/anthropic.adapter.ts:172-174 | Any other line that is not blank has no event. |
| AnthropicStream.BlankLineHasNoEvent | src/adapters/anthropic.adapter.ts:172-174 | Nor has a blank one. |
| AnthropicStream.EventsInARow | src/adapters/anthropic.adapter.ts:169-172 | The events of a text are those of its lines, one after the other. |
| AnthropicStream.StreamedText | src/adapters/anthropic.adapter.ts:142-246 | From the text to the answer: any number of data lines with text deltas yield their texts in order, then the totals and the end. |
| AnthropicStream.StreamedTool | src/adapters/anthropic.adapter.ts:142-246 | From the text to the answer: a tool block sent in any number of data lines yields one tool call with its id, its name and the parse of its joined arguments, then the totals and the end. |
| AnthropicStream.HandleEvent | src/adapters/anthropic.adapter.ts:181-230 | One event emits what it means after the events before it and updates pending tools, current block and totals. |
| AnthropicStream.UpdatePending | src/adapters/anthropic.adapter.ts:182-217 | Opening, feeding and closing a block act on that block alone; closing emits its call, if it holds one, and removes it. |
| AnthropicStream.EveryCutAccepted | src/adapters/anthropic.adapter.ts:165-168 | Every way of cutting a text is read to the end if and only if the text fits the buffer whole. |
| AnthropicStream.CutMattersBeyondLimit | src/adapters/anthropic.adapter.ts:165-168 | Beyond the limit, for any line that yields text, with or without a block index: the line and its padding in one fragment answer nothing, in two fragments the text. |
| AnthropicStream.BlockYieldsItsCall | src/adapters/anthropic.adapter.ts:182-217 | Closing a block last opened for a tool hands out that tool's call with exactly the fragments this block received since, whatever happened to other blocks. |
| AnthropicStream.WholeBlocksYieldTheirCalls | src/adapters/anthropic.adapter.ts:182-217 | However blocks are interleaved: if each block that closes is whole (closed once, at its end, and opened for a tool at its start or not at all), no block closes twice and the calls of the stream are one per closed tool block, from its own fragments, in closing order. |
| AnthropicStream.CallsOfWholeBlocks | src/adapters/anthropic.adapter.ts:177-217 | The same for events that name their block: start, deltas of any kind and stop of each block, in any interleaving of the blocks. |
| AnthropicStream.WholeBlocksAnswer | src/adapters/anthropic.adapter.ts:142-246 | For such a text, the tool calls of the whole answer are exactly these, in the order in which the blocks stop. |
| AnthropicStream.HeldByOwnActions | src/adapters/anthropic.adapter.ts:147-151 | What a block holds depends on its own events alone. |
| AnthropicStream.CallsAreWoven | src/adapters/anthropic.adapter.ts:204-217 | The calls are the closes in order, each with the result its own block gives it. |
| AnthropicStream.InterleavingIrrelevant | src/adapters/anthropic.adapter.ts:147-217 | Two interleavings of the same blocks that close them in the same order hand out the same calls. |
| AnthropicStream.AnswerShape | src/adapters/anthropic.adapter.ts:240-245 | The tool calls of an answer are the calls handed out; the body holds nothing but text and tool calls, so usage and end come once each, and last. |
| StreamResult.Adapter.Collect | src/adapters/types.ts:150-192 | A cached result is returned again; after the stream has started the generator is not touched and an error is returned; otherwise the generator is drained and the outcome is the fold of its chunks. |
| StreamResult.Adapter.Drain | src/adapters/types.ts:163-181 | The loop returns all text, all calls in order, the last usage and the last done chunk, or the first error; either way the generator is finished. |
| StreamResult.Adapter.Next | src/adapters/types.ts:135-146 | The stream yields its promised chunks in order and loses none: live chunks before a collect, the replay after one. |
| StreamResult.CollectTwice | src/adapters/types.ts:127-192 | Decided before the calls: a second collect repeats the first if and only if a result is cached, the stream has started, or the generator has neither a failure nor content without an end; otherwise the second is an empty success. |
| StreamResult.FailureIsForgotten | src/adapters/types.ts:127-192 | An input on which collect is not idempotent: one failure, then an empty success. |
| StreamResult.GatherReplay | src/adapters/types.ts:136-142 | Collecting a replayed stream gives the same text, calls and usage, and the whole result if and only if there was no finish reason. |
| StreamResult.GatherEnd | src/adapters/types.ts:163-191 | Any error-free chunks ended by a done chunk collect to their text, calls and last usage. |
| StreamResult.GatherDone | src/adapters/types.ts:172-191 | Error-free chunks and a done chunk collect to all text, all calls, the last usage and the reason of the end. |
| StreamResult.IncompleteExactly | src/adapters/types.ts:183-188 | Collecting fails as incomplete if and only if no chunk is an error or a done chunk, but some text is not empty, or there is a tool call, or the last usage reports tokens. |
| StreamResult.FirstErrorReported | src/adapters/types.ts:178-180 | The message of the first error chunk is the one reported. |
| StreamResult.ReplayLayout | src/adapters/types.ts:136-142 | A replay is the text unless it is empty, the calls in order, the usage and the end. |
| Collecting.CollectOpenAi | src/adapters/openaiCompatible.adapter.ts:179-250 | Collecting a stream whose one [DONE] comes last gives all its text, every call reassembled, and its last usage. |
| Collecting.CollectAnthropic | src/adapters/anthropic.adapter.ts:142-246 | Collecting a complete Anthropic stream always succeeds, with its text, the calls of its blocks and the usage totals. |
| Collecting.CollectWholeBlocks | src/adapters/anthropic.adapter.ts:142-246 | Collecting a stream of whole blocks gives its text, one call for each tool block in the order in which they stop, and the usage totals. |
| MessageBus.AgentMessageBus.SendMessage | src/agents/messageBus.ts:46-79 | A message to an unknown id other than "all" changes nothing; otherwise it is logged, delivered to the inbox if there is one, and each handler is called once; inbox and log stay the last 200 and 500 of the full history. |
| MessageBus.HandlersCalled | src/agents/messageBus.ts:66-68 | One message calls each handler subscribed to its address once, in order of subscription. |
| MessageBus.AgentMessageBus.BroadcastMessage | src/agents/messageBus.ts:81-89 | One message to each other agent in registration order; each inbox history grows by the messages addressed to it, and the handlers of each recipient are called once for its message. |
| MessageBus.AgentMessageBus.RegisterAgent | src/agents/messageBus.ts:30-33 | The agent is idle, keeps its place if it was known, and starts with an empty inbox. |
| MessageBus.AgentMessageBus.UnregisterAgent | src/agents/messageBus.ts:35-39 | Agent, inbox and subscriptions are gone, and the others keep their order. |
| MessageBus.AgentMessageBus.GetInbox | src/agents/messageBus.ts:97-99 | The last 200 messages delivered since the inbox was created or cleared. |
| MessageBus.AgentMessageBus.ClearInbox | src/agents/messageBus.ts:101-103 | The inbox is empty, and exists from then on. |
| MessageBus.AgentMessageBus.SetAgentStatus | src/agents/messageBus.ts:41-44 | A known agent changes its status and nothing else; an unknown id changes nothing. |
| MessageBus.AgentMessageBus.Subscribe | src/agents/messageBus.ts:91-95 | The handler is added after those already subscribed. |
| MessageBus.AgentMessageBus.Reset | src/agents/messageBus.ts:113-118 | Everything is empty. |
| MessageBus.BroadcastReachesOthersOnce | src/agents/messageBus.ts:81-89 | A broadcast addresses every other agent exactly once, and nobody else. |
| MessageBus.BoundedListIsRecentHistory | src/agents/messageBus.ts:64-77 | After any number of pushes a bounded list is the end of the full history, and never longer than its bound. |
| MessageBus.LastOfAt | src/agents/messageBus.ts:60-77 | Entry by entry, what the end of a history is. |
| Deliberation.Orchestrator.Run | src/agents/orchestrator.ts:124-131 | However a run ends, by a failure or because the consumer closes the generator at any event, the bus is empty afterwards; a run that is not cut short reports the score of its input and replies: one concession or rebuttal for each conflict with both sides on the council. |
| Deliberation.Orchestrator.DebateRound | src/agents/orchestrator.ts:274-357 | The exchanges are a critique and its classified answer for each debatable conflict in order; the log is the last 500 of them; nobody is left debating; the round ends early if and only if the model call of some debate fails or the consumer leaves at some message. |
| Deliberation.Orchestrator.Debate | src/agents/orchestrator.ts:282-355 | The critique is logged before the model call; the answer, from the challenged agent, follows unless the call fails or the consumer has left. What both say is in `Deliberation.CritiqueSays` and `Deliberation.AnswerSays`. |
| Deliberation.CritiqueSays | src/agents/orchestrator.ts:285-290 | Sender, receiver, type and text of a critique. |
| Deliberation.AnswerSays | src/agents/orchestrator.ts:317-343 | For every reply: if it has a structured form, that decides between concession and rebuttal; otherwise it concedes if and only if one of the three phrases occurs at some position of its first 100 characters in lower case. |
| Deliberation.CountExchanges | src/agents/orchestrator.ts:535-536 | Concessions among the exchanges are the conceding replies, and with the rebuttals they number the debates. |
| Deliberation.ReportSays | src/agents/orchestrator.ts:549-563 | The breakdown in whole hundredths: facts left by conflicts, debates ending in concession, two per member up to ten, and the three totals. |
| Deliberation.StructuredConcession | src/agents/orchestrator.ts:317-563 | A run with one structured concession: four facts, one conflict, two members, score 0.79. |
| Deliberation.ConfidenceBounds | src/agents/orchestrator.ts:538-552 | The reported score is at most 1, and not negative when conflicts do not outnumber extracted facts. |
| Deliberation.PerfectScore | src/agents/orchestrator.ts:538-552 | The reported score is 1 if and only if the council has five or more members and 120 times the share of conflicts among the facts plus 60 times the share of rebuttals among the debates is at most 1, which is what rounding to hundredths forgives. |
| Deliberation.ClaimScoreSign | src/agents/orchestrator.ts:538-540 | The claim score is at least 0 if and only if there are no facts or at least as many as conflicts. |
| Deliberation.ConfidenceCanBeNegative | src/agents/orchestrator.ts:538-552 | A run whose reported score is -1.16: two members who contradict each other three times over a single fact. |
| Deliberation.ConfidenceSafeForAnyDebate | src/agents/orchestrator.ts:274-552 | Known before the debates: over all runs that report a score, whatever the replies, the reported score is never negative if and only if there are no facts or 120 * (conflicts - facts) <= c * facts, where c is 4 * min(members, 5) + 1, and 60 more if no conflict is debatable. |
| HumanGates.GateKeeper.CreateGate | src/agents/orchestrator.ts:388-412 | Creating a gate arms its timer, evicts the oldest gate if 100 wait, and enters the new one last. |
| HumanGates.GateKeeper.ResolveHumanGate | src/agents/orchestrator.ts:106-114 | A waiting gate is settled with the choice, its timer cleared; an unknown one changes nothing. |
| HumanGates.GateKeeper.OnTimeout | src/agents/orchestrator.ts:394-399 | A gate still waiting is dismissed. |
| HumanGates.GateKeeper.SweepOverdue | src/agents/orchestrator.ts:94-103 | The loop that deletes from the map it iterates over settles the overdue gates. |
| HumanGates.NextKeepsInv | src/agents/orchestrator.ts:69-114 | Every step keeps: at most 100 gates in order of age, one armed timer per waiting gate and no other, each created gate waiting or settled, no resolver called twice. |
| HumanGates.GatesAccountedFor | src/agents/orchestrator.ts:69-114 | At any time of any run at most 100 gates wait, a created gate is settled if and only if it no longer waits, and there were as many resolver calls as settled gates. |
| HumanGates.DecisionsStand | src/agents/orchestrator.ts:106-114 | Over any run, a choice once settled never changes. |
| HumanGates.ResolveDecides | src/agents/orchestrator.ts:106-114 | The choice made for a waiting gate is the one it is settled with. |
| HumanGates.CreatedGateWaits | src/agents/orchestrator.ts:388-412 | A created gate waits from now on, last in order, with a timer for five minutes from now. |
| HumanGates.TimersNeverStale | src/agents/orchestrator.ts:394-399 | In any run a timer that fires finds its gate still waiting, and dismisses it. |
| HumanGates.EvictsOldest | src/agents/orchestrator.ts:400-411 | A gate created when 100 wait evicts exactly one, dismissed, and none of the others is older. |
| HumanGates.NoEvictionBelow | src/agents/orchestrator.ts:400-412 | While fewer than 100 gates wait, creating one settles none of them. |
| HumanGates.SweepSettlesOverdue | src/agents/orchestrator.ts:94-103 | After a sweep exactly the gates not older than the time-out plus ten seconds still wait. |
| HumanGates.SweepDismisses | src/agents/orchestrator.ts:94-103 | Each of those older than that is settled with the dismissal, and its timer is cleared. |
| HumanGates.WaitIsBounded | src/agents/orchestrator.ts:92-103 | Even if every timer fails, while sweeps run on time no gate waits longer than time-out, grace and one interval. |
| SharedFacts.FactStore.AddFact | src/agents/sharedMemory.ts:25-43 | The row gets its columns as given, the confidence moved to the nearest value in [0, 1], and the source agent as the first confirmer; other rows are untouched. |
| SharedFacts.FactStore.ConfirmFact | src/agents/sharedMemory.ts:56-72 | The voters' columns of the fact record one more confirming vote; its other columns, other rows and unknown facts are untouched. |
| SharedFacts.FactStore.DisputeFact | src/agents/sharedMemory.ts:75-90 | The voters' columns of the fact record one more disputing vote; its other columns, other rows and unknown facts are untouched. |
| SharedFacts.UpholdersAppend | src/agents/sharedMemory.ts:66-69 | Removing an agent from both columns and appending it to one gives the sides of the extended vote history. |
| SharedFacts.SideOfLatestVote | src/agents/sharedMemory.ts:56-90 | An agent is in a column if and only if its latest vote is for that side. |
| SharedFacts.OrderedByLatestVote | src/agents/sharedMemory.ts:66-69 | Each column lists its agents in order of their latest votes. |
| SharedFacts.SidesPartitionVoters | src/agents/sharedMemory.ts:56-90 | The columns are disjoint and together count the distinct voters. |
| Permissions.ResolveWith | src/auth/permissions.ts:83-106 | For every implication map the loops terminate with the least set that contains the grants and the basic permission and is closed, without duplicates. |
| Permissions.AddImplied | src/auth/permissions.ts:92-102 | One pass over the live set, which also visits what it adds, already leaves every member's implications inside. |
| Permissions.LeastIsUnique | src/auth/permissions.ts:83-106 | There is only one such set. |
| Permissions.LeastIsMonotone | src/auth/permissions.ts:83-106 | More grants never yield less. |
| Permissions.LeastIsIdempotent | src/auth/permissions.ts:83-106 | Resolving a resolved set changes nothing. |
| Permissions.LeastDistributes | src/auth/permissions.ts:83-106 | Resolving a union is the union of the resolved sets. |
| Permissions.GetEffectivePermissions | src/auth/permissions.ts:112-122 | Stored strings that name permissions are the grants; others are ignored. |
| Permissions.GetAssignablePermissions | src/auth/permissions.ts:141-158 | Exactly the fourteen permissions named in the contract, which are those not in the non-toggleable set, in the order in which they are listed and so without repeats. |
| Permissions.OneStepSuffices | src/auth/permissions.ts:55-75 | With the real map a permission is effective if and only if it is basic, granted, or implied directly by a grant. |
| Permissions.WhoHoldsWhat | src/auth/permissions.ts:55-75 | A permission is effective if and only if it is basic, granted, or implied by full administration or one of the few permissions the map lists for it. |
| Permissions.HeldByName | src/auth/permissions.ts:20-122 | Which stored strings make which permission effective, from the strings themselves. |
| Permissions.AdminOnlyByGrant | src/auth/permissions.ts:55-75 | Full administration is effective if and only if it was granted itself. |
| Permissions.AssignableNeverAdmin | src/auth/permissions.ts:141-158 | No set of assignable grants yields full administration. |
| Acl.TokensDecideAccess | src/access/models.ts:51-106 | Document list and user tokens share a string if and only if the structured record admits the user: public, user id, group, external group, or non-empty lower-cased email. |
| Acl.ToAclList | src/access/models.ts:51-72 | The loops push the tagged tokens of the record in order. |
| Acl.BuildUserAclTokens | src/access/models.ts:78-106 | The loops push the user's tokens in order. |
| Acl.DecodeEncode | src/access/models.ts:44-49 | No tag can be mistaken for another, whatever text follows it. |
| Acl.NumberToStringInjective | src/access/models.ts:59 | Different integer ids are rendered differently. |
| Acl.DocumentTokens | src/access/models.ts:51-72 | The tokens of a document are exactly its claims, encoded. |
| Acl.UserTokensAreClaims | src/access/models.ts:78-106 | The tokens of a user are exactly the user's claims, encoded. |
| Acl.DocumentTokenTexts | src/access/models.ts:51-72 | Token by token, with the literal tags: what a document list contains. |
| Acl.UserTokenTexts | src/access/models.ts:78-106 | The same for a user. |
| Acl.NumberText | src/access/models.ts:59 | Ids are written in decimal, highest digit first, with a minus sign if negative. |

## Left out

- Network access, breakers, model listing and availability checks of the adapters: foreign code and I/O.
- JSON parsing, UTF-8 decoding and regular-expression engines: arbitrary functions, or already applied.
- The Gemini, Ollama and custom adapters: the same buffering loop with less state.
- UTF-16: a `char` is a Unicode scalar value here and a code unit in the program. Characters outside the basic plane count once instead of twice, and lone surrogates do not exist, so the buffer limit and the 100-character opening of a reply are only exact for texts in the basic plane.
- A consumer that stops reading the events of a run without closing the generator: the run is then never resumed, and the bus not reset.
- Message formatting and system-prompt merging of the adapters: list traversals without state.
- Errors thrown by the network reader in the middle of a stream: they pass through the parsers unchanged.
- Two concurrent runs, collects or stream iterations on one object, and subscribers that call back into the bus: use is sequential.
- Aliasing of the arrays that `getInbox` and `getAllMessages` hand out: they are values here.
- Prompt texts, retrieval, conflict detection, fact extraction, reliability scores and synthesis of a run: arbitrary inputs, or without effect on the state modelled.
- Redis persistence of gates: best effort and never read back.
- Deliberation.ConfidenceBounds: over rationals, so a floating-point score within rounding error of a half hundredth may be reported one hundredth away.
- Deliberation.PerfectScore: over rationals, in the same sense.
- Deliberation.ConfidenceSafeForAnyDebate: over rationals, in the same sense.
- Painter.FillRect: integer coordinates only, and the concrete coordinates of the glyph are not modelled.
- Png.MakePng: the engine's own limits on array sizes are not modelled.
- File writing, the extension's user interface, routes, OAuth, generated types and configuration: plumbing.
