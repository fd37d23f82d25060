# Verification of the HTTP assembler and the TCP server

A Dafny model of the networking core of the repository: the incremental HTTP/1.x assembler that
edits a bounded receive buffer in place, the list scanner and the request printer it has to agree
with, and the client protocol of the TCP server.

## How the model is built

- `HttpAssembler.dfy` has the source's own form: `HttpStreamState` and `HttpAssembler` are classes,
  `feed` is a loop over an `array<char>` with one method per state, and the receive buffer is shifted,
  spilled and compacted in place.
- `BoundedParser.dfy` is the specification it is proved against: a fold over single bytes that keeps
  the same positions, counters and full-buffer step, and knows nothing of how bytes were grouped.
- `StreamParser.dfy` is the grammar alone: no buffer, no positions. `Transparency.dfy` and
  `StreamFits.dfy` say when the bounded parser cannot be told from it, `CompactionFaults.dfy` gives
  streams on which it can.
- `RequestRoundTrip.dfy`, `ChunkedDecoding.dfy` and `Framing.dfy` are about that grammar: what a client
  sends is read back, chunk encodings are inverted, limits bound what comes out.
- `Language.dfy` says without a parser which streams are whole requests and then one under way, and proves
  that the grammar takes these streams and no others, with the messages that are due for them.
- `ResourceBounds.dfy` bounds every message that the bounded parser brings out, on every stream.
- `Connection.dfy` receives a whole stream in reads of arbitrary size.
- `Utils.dfy` proves the list scanner against a grammar of lists and quoted strings; `ListGrammar.dfy`
  says which texts are such lists and proves that they are read back; `ListJoin.dfy` proves what joining
  two header values with a comma does to them.
- `Text.dfy` says what lower-casing and reading a number are.
- `Client.dfy`, `ClientTable.dfy` and `TcpServer.dfy` are the server's classes, their methods proved
  against functions on accounts and tables. `ServerState.dfy` is the same server as a transition
  system of atomic steps, built from the same functions; `ServerSteps.dfy` shows that each method, run
  alone, is a run of those steps; `ServerSafety.dfy` proves the invariant of each step,
  `ServerRuns.dfy` what follows for every run, and `ServerOwnership.dfy` exactly which runs keep the
  ownership of the receive buffers. The worker's turn in `TcpServer.dfy` calls `HttpAssembler.Feed` on
  the client's buffer, and what comes back is proved to be what the transition system allows.

In the transition system thread 0 is the listener, the next threads are the assembler workers, the
rest belong to the application. A post to the operating system succeeds or fails as an event says;
what pends completes at any time and in any order.

## Where the code and its purpose differ

The model keeps what the code does, and says exactly when that is what it should do.

- Compaction (`src/networking/http/HttpAssembler.cpp:660`) moves `last_checkpoint` bytes, not the
  `buffer_len - last_checkpoint` bytes of the unfinished line. `Compaction.AsWritten` is that, and is
  what `HttpAssembler.Feed` is proved against; `Compaction.WholeLine` is the repaired length. With the
  written length the live bytes are right, for all contents, if and only if the checkpoint is at least
  half the buffer (`CompactionExactness`), and the copy stays inside the block allocated at
  `src/networking/Client.cpp:8` if and only if the checkpoint is at most half of it; so it is both at one
  checkpoint only, the middle (`CompactionInBlock`). The repaired length is always both
  (`RepairInBlock`).
- `LongLineIsDamaged` gives a stream whose header name is changed, for every buffer of at least 34 bytes
  with a request-line limit of at least 15 and a header limit of at least the buffer length less 16.
  `LongRequestLineOverReads` and `EveryBufferCanBeOverRead` give streams within the limits on which the
  written length reads past the end of the block, for every buffer of at least 30 bytes.
- The shifts at lines 322, 433, 532 and 587 move one byte more than is live. They stay inside the block
  if and only if the message ends with the last byte of the buffer or the buffer is not full
  (`ShiftInBlock`).
- What a copy does that reads past its block is not defined. The methods are given the written lengths;
  where a length leaves the block they move the bytes that the block has. The live bytes do not depend
  on the others, which all land behind them.
- Line 270 looks at the byte before the current one before it tests that the token has one byte. The
  model tests first; the conjunction is the same. At the front of the buffer that byte is before the
  block: `AtFrontExactly` says when a header line is read there, and `FullLineLooksBefore` shows that it
  is, behind every request line that is as long as the buffer.
- `last_checkpoint` is not cleared when a chunk leaves the buffer (lines 536-540), nor in the model.
  `FullExactness` states for every phase and every position when the full-buffer step keeps what is being
  read for all contents of the buffer: if and only if it does not lose it (`Loses`: no checkpoint, a stale
  one, or live bytes behind those that are moved). A size line behind a chunk is therefore read as it was
  sent if and only if it does not fill the buffer (`SizeLineSurvives`); `StaleCheckpointDamages` shows one
  that does, for every chunked head that fits. While no step loses anything the buffer does not show
  (`TransparentUnlessLost`).
- A declared length that is not positive never completes, because the counter is increased before it is
  compared (lines 53 and 404). `LengthCompletesExactly` states both halves.
- The loops at lines 248 and 355 never run, since they start from the byte that ends the token; trailing
  spaces stay part of names and values, and of what is stored.
- A response never gets past its status line: line 145 compares the current byte with both LF and CR.
  The response states are modelled, and `ResponsesNeverComplete` is proved.
- The code of a response is computed from the first three bytes of the buffer (line 123), where its version
  stands: it is 2796, whatever the digits are (`StatusState`). Nothing reads it.
- The headers are moved from with the first chunk (line 513), so later chunks of a message carry an
  empty table. A moved-from table is taken to be empty.
- A size line may have a CR in it: what stands between it and the CR LF at the end, hexadecimal digits and
  more CRs, is taken for a part of the line and ignored (lines 445-483; `Size.skipped`).
- A number may be followed by anything that is no digit: `from_chars` succeeds, and nothing tests how far it
  has read (`src/networking/Utils.h:113`, line 816). A `content-length` of `5x` declares five bytes.
- The digit tests of line 115 repeat what the state already tested for each byte, and are left out.
- Giving up a reference, testing for zero and terminating the client are separate operations in
  `src/networking/TCPServer.h` (for example lines 235-240). They are one step in the model, and so is
  one completion handled by the listener.
- A failed send makes its client disconnecting at once, while its received bytes may be queued or a
  receive may pend. `OwnershipExactness` states for every run that the receive buffer of an id is owned
  rightly throughout if and only if no send of that id failed to be posted for a client that was neither
  disconnecting nor rejected; `FailedSendStrandsId` is a run in which one did. Such a failure taints the
  id. The mark goes when a later client gets the id while it is neither queued nor in its worker's hand
  (`AcceptTaint`), so that what is stated of untainted ids holds of every client that neither lost a send
  nor inherited a stranded id.
- The comments on the client list speak of a map with generated keys; the code is a vector with a stack
  of free ids, and the model follows the code.

## Model

| member | source | states |
|---|---|---|
| Connection.Receive | src/networking/http/HttpAssembler.cpp:48-672 | however a connection's stream is cut into reads that fit, the messages and whether there is an error are those of one fold over the whole stream; with the limits as the setters keep them every message is within its bounds |
| Connection.ReadAndFeed | src/networking/TCPServer.h:597-599 | a read and the `feed` after it continue the fold, and leave room for another read |
| Connection.ReceivedMore | src/networking/http/HttpAssembler.cpp:48-621 | folding the next read after what was folded is folding the longer prefix |
| Connection.ReceivedAll | src/networking/http/HttpAssembler.cpp:615-618 | after an error the rest of the stream brings out nothing more |
| Assembler.HttpAssembler.Feed | src/networking/http/HttpAssembler.cpp:15-696 | messages, error and remaining buffer are those of the fold over the new bytes; an error forgets everything; other connections keep their states; the buffer ends up with room; called on a buffer that is not full it can be held to never reading past the block |
| Assembler.HttpAssembler.StateOf | src/networking/http/HttpAssembler.cpp:21-39 | the state of a known connection, or a fresh one, and no other state changes |
| Assembler.HttpAssembler.Assemble | src/networking/http/HttpAssembler.cpp:48-695 | the loop, the full-buffer step and the error exit together continue the fold |
| Assembler.HttpAssembler.Loop | src/networking/http/HttpAssembler.cpp:48-621 | the loop reads every byte it was given unless it fails, as the fold does |
| Assembler.HttpAssembler.Pass | src/networking/http/HttpAssembler.cpp:48-621 | one pass reads one byte: what is left shrinks by exactly one, also where the buffer is shifted |
| Assembler.HttpAssembler.ParseByte | src/networking/http/HttpAssembler.cpp:50-613 | the switch does with a byte what the fold does, in every state |
| Assembler.HttpAssembler.MethodState | src/networking/http/HttpAssembler.cpp:57-109 | first word of a message |
| Assembler.HttpAssembler.FirstWord | src/networking/http/HttpAssembler.cpp:60-93 | a version begins a response, a method a request, anything else fails |
| Assembler.HttpAssembler.StatusState | src/networking/http/HttpAssembler.cpp:111-142 | status of a response; the code is computed from the first three bytes of the buffer, which are not its digits |
| Assembler.HttpAssembler.HeadersStartState | src/networking/http/HttpAssembler.cpp:144-167 | the rest of a status line, which is never left |
| Assembler.HttpAssembler.UriState | src/networking/http/HttpAssembler.cpp:168-194 | request target |
| Assembler.HttpAssembler.VersionState | src/networking/http/HttpAssembler.cpp:195-236 | version and end of the request line |
| Assembler.HttpAssembler.HeaderNameState | src/networking/http/HttpAssembler.cpp:237-346 | a byte of a header name |
| Assembler.HttpAssembler.HeaderNameEnd | src/networking/http/HttpAssembler.cpp:242-265 | at the colon the name without its leading spaces is kept by position |
| Assembler.HttpAssembler.SkipSpaces | src/networking/http/HttpAssembler.cpp:245-246 | the skipping loop stays in bounds and drops exactly the leading spaces |
| Assembler.HttpAssembler.BlankLine | src/networking/http/HttpAssembler.cpp:270-330 | after the blank line: chunks, a declared length, an error, or a finished message and a shifted buffer |
| Assembler.HttpAssembler.DeclaredLength | src/networking/http/HttpAssembler.cpp:285-307 | a length that parses and is within the limit begins a body, others fail |
| Assembler.HttpAssembler.HeaderValueState | src/networking/http/HttpAssembler.cpp:348-393 | a byte of a header value |
| Assembler.HttpAssembler.HeaderLineEnd | src/networking/http/HttpAssembler.cpp:350-377 | the header is stored under its lower-case name unless the value is empty; the first value of a name stays |
| Assembler.HttpAssembler.TrimmedValue | src/networking/http/HttpAssembler.cpp:352-362 | the value loses its leading spaces and its CR, nothing else |
| Assembler.HttpAssembler.BodyState | src/networking/http/HttpAssembler.cpp:394-441 | a byte of a body of declared length |
| Assembler.HttpAssembler.WholeBody | src/networking/http/HttpAssembler.cpp:409-425 | both emission branches yield the spilled bytes and then the bytes in the buffer up to the current one |
| Assembler.HttpAssembler.ChunkSizeState | src/networking/http/HttpAssembler.cpp:442-493 | a byte of a chunk-size line |
| Assembler.HttpAssembler.ChunkSizeLine | src/networking/http/HttpAssembler.cpp:444-480 | the size begins a chunk, the end of the message, or an error |
| Assembler.HttpAssembler.ChunkState | src/networking/http/HttpAssembler.cpp:494-551 | a byte of a chunk; a finished chunk is a message and leaves the buffer |
| Assembler.HttpAssembler.ChunkSkipLineState | src/networking/http/HttpAssembler.cpp:552-572 | the line end behind a chunk |
| Assembler.HttpAssembler.EndOfChunkedState | src/networking/http/HttpAssembler.cpp:573-605 | the line end behind the last chunk finishes with an empty message |
| Assembler.DropThrough | src/networking/http/HttpAssembler.cpp:316-324 | the shift leaves exactly the bytes after the current one, in front; where it stays in the block, the whole buffer is what the written `memmove` makes of it |
| Assembler.MoveToFront | src/networking/http/HttpAssembler.cpp:322-322 | the whole buffer after a `memmove` to its front, inside the block or not; called `inside`, it has to be |
| Assembler.HttpAssembler.FreeSpace | src/networking/http/HttpAssembler.cpp:623-672 | the full-buffer step is that of the fold |
| Assembler.HttpAssembler.Spill | src/networking/http/HttpAssembler.cpp:633-637 | body bytes in the buffer are appended to the spilled ones and the buffer is empty |
| Assembler.HttpAssembler.Compact | src/networking/http/HttpAssembler.cpp:660-670 | the compaction as written, with all positions moved back |
| Assembler.HttpAssembler.MoveLine | src/networking/http/HttpAssembler.cpp:660-668 | which bytes the compaction leaves live; where the written length stays in the block, the whole buffer is what the written `memmove` makes of it |
| Assembler.HttpStreamState.ResetState | src/networking/http/HttpAssembler.cpp:733-760 | the state is the initial one in every field of the source |
| Assembler.HttpStreamState.BeginChunk | src/networking/http/HttpAssembler.cpp:458-464 | what a chunk-size line changes, and nothing else |
| Assembler.HttpStreamState.EndChunk | src/networking/http/HttpAssembler.cpp:513-540 | what a finished chunk resets; the checkpoint is not among it |
| Assembler.HttpStreamState.MoveBack | src/networking/http/HttpAssembler.cpp:661-670 | all positions of the source move back by the checkpoint, clamped at zero |
| Assembler.HttpAssembler.SetMaxRequestLineLength | src/networking/http/HttpAssembler.cpp:698-701 | one limit changes, the others do not |
| Assembler.HttpAssembler.SetMaxRequestHeaderBytes | src/networking/http/HttpAssembler.cpp:703-706 | one limit changes, the others do not |
| Assembler.HttpAssembler.SetMaxBodySize | src/networking/http/HttpAssembler.cpp:708-718 | refused below the memory limit; a memory limit within the body limit stays so |
| Assembler.HttpAssembler.SetMaxBodyMemoryBuffer | src/networking/http/HttpAssembler.cpp:720-731 | refused above the body limit; a memory limit within the body limit stays so |
| BoundedParser.ByteFollows | src/networking/http/HttpAssembler.cpp:50-613 | one byte keeps all positions in order, the body account exact, and does what the grammar does |
| BoundedParser.RunAppend | src/networking/http/HttpAssembler.cpp:48-672 | folding `a` and then `b` is folding `a + b`, full-buffer steps included |
| BoundedParser.FullReady | src/networking/http/HttpAssembler.cpp:623-672 | the full-buffer step fails or leaves an ordered state with room |
| BoundedParser.ErrorStays | src/networking/http/HttpAssembler.cpp:609-618 | after an error nothing is read |
| BoundedParser.InitialReady | src/networking/http/HttpAssembler.h:54-82 | a new connection is ready and means the start of the grammar |
| BoundedParser.UnderWayStep | src/networking/http/HttpAssembler.cpp:48-621 | a pass of the loop, whose buffer is only seen to after the last byte, keeps up with the fold |
| Transparency.BoundedIsTransparent | src/networking/http/HttpAssembler.cpp:623-671 | if every line fits, the messages and the first error equal those of an unlimited buffer, and the live bytes are the last bytes received |
| Transparency.CompactionExactness | src/networking/http/HttpAssembler.cpp:657-671 | of the bytes in the buffer, those moved are the unfinished line, for all contents, if and only if the whole line is moved or the checkpoint is at least half the buffer |
| Transparency.CompactionInBlock | src/networking/http/HttpAssembler.cpp:660-660 | the written copy stays in the block if and only if the checkpoint is at most half of it; it stays there and is right, for all contents, if and only if the checkpoint is exactly half |
| Transparency.RepairInBlock | src/networking/http/HttpAssembler.cpp:660-660 | the length of the line stays in the block and is right, for every checkpoint and all contents |
| Transparency.ShiftInBlock | src/networking/http/HttpAssembler.cpp:316-324 | a shift stays in the block if and only if it is not made or the buffer is not full, and then brings what follows to the front |
| Transparency.FullExactness | src/networking/http/HttpAssembler.cpp:623-672 | for a machine in any phase with any positions: the full-buffer step keeps what is being read, for all contents of the buffer, if and only if it does not lose it |
| Transparency.FullKeepsMeaning | src/networking/http/HttpAssembler.cpp:623-672 | unless it loses what is being read, the full-buffer step changes nothing of it |
| Transparency.KeepsUpKeepsAll | src/networking/http/HttpAssembler.cpp:657-671 | with a checkpoint that is not stale and a copy that takes the whole line, the live bytes stay the last bytes received |
| Transparency.SizeLineSurvives | src/networking/http/HttpAssembler.cpp:442-493 | a size line behind a chunk, at position 2 with the checkpoint of the headers still standing, is read as it was sent if and only if it does not fill the buffer |
| Transparency.TransparentUnlessLost | src/networking/http/HttpAssembler.cpp:48-672 | on every stream: as long as no full-buffer step loses anything, messages and state are those of an unlimited buffer |
| Transparency.ClampsAreExact | src/networking/http/HttpAssembler.cpp:661-667 | on the positions of a header line the clamps at zero never act |
| Transparency.HeldIsSuffix | src/networking/http/HttpAssembler.cpp:657-671 | with the whole line moved, the live bytes are the last bytes received on every stream |
| Transparency.SpillWithinLength | src/networking/http/HttpAssembler.cpp:626-651 | on every stream the spilled bytes stay below the declared length of the body or chunk |
| Transparency.ChunkNeverTooLarge | src/networking/http/HttpAssembler.cpp:544-548 | with the limits as the setters keep them the size error of the chunk state is unreachable |
| Transparency.NextFollows | src/networking/http/HttpAssembler.cpp:48-672 | one byte of a stream whose lines fit, with the full-buffer step, is one byte of the grammar |
| Transparency.FitsKeepsUp | src/networking/http/HttpAssembler.cpp:657-671 | a line that fits satisfies the guard of the compaction, with stale checkpoints allowed for |
| StreamFits.PipelineThroughBuffer | src/networking/http/HttpAssembler.cpp:48-672 | any mixture of clean pipelined requests, plain or chunked, with header names in any case, whose request lines fit the buffer and whose header and size lines are short, comes out of the bounded buffer as what is due for each, in order, nothing left behind |
| StreamFits.ChunkedThroughBuffer | src/networking/http/HttpAssembler.cpp:442-605 | one chunked request comes out as its chunks, of any size within the limit, over any number of spills, and the parser is reset |
| CompactionFaults.LongLineIsDamaged | src/networking/http/HttpAssembler.cpp:660-660 | a reachable state in which the compaction as written changes the header name being read |
| CompactionFaults.LongRequestLineOverReads | src/networking/http/HttpAssembler.cpp:660-660 | for every request line longer than half the buffer, a stream within the limits on which the written compaction reads past the block |
| CompactionFaults.EveryBufferCanBeOverRead | src/networking/http/HttpAssembler.cpp:660-660 | such a stream for every buffer of at least 30 bytes whose limits let it through |
| CompactionFaults.StaleCheckpointDamages | src/networking/http/HttpAssembler.cpp:536-540 | for every chunked head that fits, a size line of a second chunk that the stale checkpoint cuts short, with either length of compaction |
| CompactionFaults.AtFrontExactly | src/networking/http/HttpAssembler.cpp:270-270 | a header line is read from the front of the buffer exactly when the buffer filled up with the last byte of a line |
| CompactionFaults.FullLineLooksBefore | src/networking/http/HttpAssembler.cpp:270-270 | behind every request line that is as long as the buffer, a line feed makes the blank-line test look before the buffer |
| CompactionFaults.FollowsUntilFull | src/networking/http/HttpAssembler.cpp:48-621 | until the buffer is full it holds all that was fed and means what the grammar means |
| StreamFits.RequestLineFits | src/networking/http/HttpAssembler.cpp:168-236 | a request line of at most the whole buffer fits |
| StreamFits.HeaderLineFits | src/networking/http/HttpAssembler.cpp:237-393 | a header line fits if without its last byte it is no longer than a line may be |
| StreamFits.ExchangesFit | src/networking/http/HttpAssembler.cpp:623-671 | every line of such a pipeline fits, and the grammar reads what is due |
| StreamFits.BufferedLanguage | src/networking/http/HttpAssembler.cpp:48-672 | while no full-buffer step loses anything the buffered assembler refuses exactly what is not whole requests and then one under way, and brings out what is due |
| StreamFits.EncodedFits | src/networking/http/HttpAssembler.cpp:442-605 | the lines of a chunked body fit if the first size line is short and every later one leaves room in an empty buffer |
| StreamParser.RunAppend | src/networking/http/HttpAssembler.cpp:48-621 | the grammar reads `a + b` as `a` and then `b` |
| RequestRoundTrip.RequestReadBack | src/networking/http/HttpAssembler.cpp:168-441 | a clean request within the limits, its header lines in any order, with names in any case, spaces around them and repetitions, is read back with the table these lines give, and the parser is at its start |
| RequestRoundTrip.PipelineReadBack | src/networking/http/HttpAssembler.cpp:48-621 | any list of such requests sent one after the other is read back as that list |
| RequestRoundTrip.ReadRequestLine | src/networking/http/HttpAssembler.cpp:57-236 | a request line is read back |
| RequestRoundTrip.ReadLines | src/networking/http/HttpAssembler.cpp:237-393 | the lines of a header section lead to the table they give, all bytes counted |
| RequestRoundTrip.StoredExactly | src/networking/http/HttpAssembler.cpp:371-371 | lines give one table, the stored one: exactly the names that occur, without capitals, each with the value of the first line that has the name in whatever case |
| RequestRoundTrip.PrintedReadBack | src/networking/http/HttpMessage.cpp:93-123 | what the printer writes of a clean request, with its headers in any order, is read back as that request |
| RequestRoundTrip.PrintedGives | src/networking/http/HttpMessage.cpp:114-117 | the lines the printer writes give the table they were printed from |
| RequestRoundTrip.ChunkedExactly | src/networking/http/HttpAssembler.cpp:273-274 | a body is chunked if and only if the value of `transfer-encoding` begins with a list, written out, that ends with `chunked` |
| RequestRoundTrip.ChunkedIfListed | src/networking/http/HttpAssembler.cpp:273-279 | behind the blank line, a table whose transfer codings are a list of tokens leads to a chunk size if and only if one of the tokens is `chunked` |
| RequestRoundTrip.HeadersLead | src/networking/http/HttpAssembler.cpp:270-330 | what every header table leads to behind the blank line: chunks, a body of the declared length, a refusal of one over the limit, or a message |
| RequestRoundTrip.ParseNumberExactly | src/networking/http/HttpAssembler.cpp:803-819 | for every text: a number is read if and only if the text begins with it, or is one in quotes, and it fits an `int` |
| RequestRoundTrip.ReadEnd | src/networking/http/HttpMessage.cpp:119-120 | the blank line and the body complete the message |
| RequestRoundTrip.DecimalLength | src/networking/http/HttpAssembler.cpp:285-307 | a declared length in decimal, quoted or not: every length over the limit is refused, every other is taken as it is |
| ChunkedDecoding.ChunksReadBack | src/networking/http/HttpAssembler.cpp:442-605 | decoding inverts the chunk encoding of section 7.1 of RFC 9112: the chunks in order, then one empty body, then the start |
| ChunkedDecoding.ChunkedRequestReadBack | src/networking/http/HttpAssembler.cpp:270-605 | the same for a whole request whose transfer coding lists `chunked`; the headers go with the first message |
| ChunkedDecoding.PlainChunked | src/networking/http/HttpAssembler.cpp:273-274 | `transfer-encoding: chunked` itself is such a transfer coding |
| ChunkedDecoding.ReadSize | src/networking/http/HttpAssembler.cpp:442-480 | a size line, in either case, with leading zeros or none: a size over the limit is refused, however large, any other opens a chunk of its value, and zero the end |
| Language.StreamExactly | src/networking/http/HttpAssembler.cpp:48-621 | for every stream and all limits: it is refused if and only if it is not whole requests and then one under way, in one of twelve written forms; and whenever it is, messages and state are what is due for it |
| Language.RefusedExactly | src/networking/http/HttpAssembler.cpp:609-618 | a stream is refused exactly at the byte with which no request goes on, and what was due by then has come out |
| Language.WholeExactly | src/networking/http/HttpAssembler.cpp:48-621 | a stream leaves the parser as it was before with some messages if and only if it is a list of requests, in one piece or chunked, and the messages are what is due for them |
| Language.ByteLeads | src/networking/http/HttpAssembler.cpp:50-613 | one more byte of a request under way goes on with it, completes it or is refused |
| Language.ReadingRead | src/networking/http/HttpAssembler.cpp:50-613 | every request under way leads to the state and the messages it should |
| ResourceBounds.EveryMessageWithinBounds | src/networking/http/HttpAssembler.cpp:48-672 | of the buffered assembler, for every stream, every buffer and both lengths of compaction: every message has a request line of at most the limit and one byte, names and values of at most the header limit and one byte in all, and a body within its limit |
| ResourceBounds.FullWithin | src/networking/http/HttpAssembler.cpp:623-672 | the full-buffer step may damage what is read, but not what is counted |
| ResourceBounds.TotalSizeEmplace | src/networking/http/HttpAssembler.cpp:371-371 | storing a header adds at most its name and value to the size of the table |
| ResourceBounds.HeadsStandInStream | src/networking/http/HttpAssembler.cpp:168-605 | while no full-buffer step loses anything, the head of every message stands in the stream, each of its sections within its limit, and its body is within its own |
| Framing.EmittedWithinLimits | src/networking/http/HttpAssembler.cpp:168-605 | of the grammar alone: every message of every stream, later chunks included, has its head as a stretch of the stream: its request line, header lines that give its table, and the blank line, each section at most its limit and one byte; and its body is within its own |
| Framing.LengthCompletesExactly | src/networking/http/HttpAssembler.cpp:394-439 | a body of a declared length can complete if and only if the length is at least one and within the limit |
| RequestRoundTrip.BodyText | src/networking/http/HttpAssembler.cpp:404-438 | the declared number of bytes that follow are the body, and the parser is at its start |
| Framing.BodyNeverCompletes | src/networking/http/HttpAssembler.cpp:397-404 | a length that is not positive takes all bytes that follow, until the limit fails |
| Framing.ResponsesNeverComplete | src/networking/http/HttpAssembler.cpp:111-167 | a stream that begins like a response never yields a message |
| Http.MethodTable | src/networking/http/HttpAssembler.cpp:762-801 | the method table accepts exactly the printed names, each as its own method |
| Http.MethodsTaken | src/networking/http/HttpAssembler.cpp:762-801 | the words taken for a method are the nine names |
| Http.AddedHeaderLists | src/networking/http/HttpMessage.cpp:80-91 | a header built by adding well-formed values lists what they list, in their order; no other header changes |
| Http.AddedHeaderContains | src/networking/http/HttpMessage.cpp:80-91 | it contains a token if and only if one of the values does |
| Http.HttpMessage.AddHeader | src/networking/http/HttpMessage.cpp:80-91 | a header that exists is extended after a comma, another is set; no other header changes |
| Http.HttpMessage.SerializeRequest | src/networking/http/HttpMessage.cpp:93-123 | the text has each header exactly once, in some order of the table |
| Utils.ContainsToken | src/networking/Utils.h:24-105 | finds a token if and only if it is an element of the list grammar of sections 5.6.1 and 5.6.4 of RFC 9110, for every value and token, in bounds |
| ListGrammar.ElementsExactly | src/networking/Utils.h:24-105 | for every value, well formed or not, and every token that is not empty: it is an element if and only if the value begins with a written list that ends with it |
| ListGrammar.ListReadBack | src/networking/Utils.h:24-105 | a list of tokens, bare or in quotes with escapes, with any blanks around them, is read back as these tokens |
| Utils.SkipQuoted | src/networking/Utils.h:45-50 | finds the end of a quoted string, also where an escape carries the index past the end |
| Utils.MatchesElement | src/networking/Utils.h:64-84 | the trim and the comparison decide whether the element is the token |
| Utils.ElementStep | src/networking/Utils.h:30-102 | a token is in the rest of a list if it is the next element or in the rest after that |
| Utils.ToLowerAscii | src/networking/Utils.h:12-22 | the text without capitals that differs from the argument in the case of letters only |
| Text.ToLowerExactly | src/networking/Utils.h:12-22 | lower-casing gives the one text that differs in case only and has no capital in it |
| Text.SameButCaseExactly | src/networking/Utils.h:12-22 | texts have the same lower-case form if and only if they differ in case only |
| Text.FromCharsExactly | src/networking/Utils.h:107-116 | for every text, base and number: the number is read if and only if the text begins with it (a minus sign or none, leading zeros, digits in either case, then no digit) and it fits an `int` |
| Text.PrintFromChars | src/networking/Utils.h:107-116 | a printed number, with a minus sign or without, is parsed back, and refused if and only if it does not fit |
| Text.NoDigitsRefused | src/networking/Utils.h:107-116 | a text with no digit where the digits should be is refused |
| Text.ValueExactly | src/networking/Utils.h:107-116 | the texts of digits with a value are leading zeros and the digits it is printed with, in either case |
| ListJoin.JoinHomomorphism | src/networking/http/HttpMessage.cpp:85-85 | after a well-formed value, a joined list has the elements of the one and then those of the other, empty ones aside |
| ListJoin.JoinExactness | src/networking/http/HttpMessage.cpp:85-85 | a value can be joined with anything without loss or gain if and only if it is well formed |
| ListJoin.MalformedStops | src/networking/Utils.h:52-56 | a malformed value hides what is joined behind it, unless that has a quote in it |
| ListJoin.WellFormedJoin | src/networking/http/HttpMessage.cpp:85-85 | well-formed values joined are well formed |
| Clients.ChunksWhole | src/networking/TCPServer.h:303-318 | the chunks of a message are not over-long, at least one, and together the message |
| Clients.ConcatAppend | src/networking/TCPServer.h:303-318 | bytes queued one after the other are bytes sent one after the other |
| Clients.Client.constructor | src/networking/Client.cpp:4-9 | a new client refers to nothing, sends nothing, holds nothing |
| Clients.Client.IncreaseReferenceCount | src/networking/Client.cpp:36-39 | one more reference |
| Clients.Client.DecreaseReferenceCount | src/networking/Client.cpp:41-44 | one reference fewer |
| Clients.Client.Disconnect | src/networking/Client.cpp:46-49 | the client is disconnecting |
| Clients.Client.PostReceiveEvent | src/networking/TCPServer.h:813-847 | a posted receive holds a reference; a failed post disconnects |
| Clients.Client.PostSendEvent | src/networking/TCPServer.h:849-884 | a posted send holds a reference and is under way; an over-long chunk or a failed post disconnects |
| Clients.Client.Enqueue | src/networking/TCPServer.h:303-318 | the chunking loop appends the chunks in order |
| Clients.Client.SendLocked | src/networking/TCPServer.h:301-325 | the locked part of `send` on the client's whole account |
| Clients.Client.SendDone | src/networking/TCPServer.h:266-283 | the listener's locked part for a completed send |
| ClientTables.AddSound | src/networking/TCPServer.h:519-539 | the free ids stay exactly the empty slots, each once; a new client never gets the id of a live one; no other client moves |
| ClientTables.RemoveSound | src/networking/TCPServer.h:557-567 | the same for termination, which does nothing for an id that is not live |
| ClientTables.ReusedFirst | src/networking/TCPServer.h:519-567 | the id that became free last is the next to be handed out, and then the free ids are as they were |
| ClientTables.LengthIsPeak | src/networking/TCPServer.h:506-567 | after any history the table is as long as the most clients that were live at once |
| ClientTables.HistoryLength | src/networking/TCPServer.h:506-567 | the same from any state of the table |
| ClientTables.ClientTable.AddClient | src/networking/TCPServer.h:519-539 | a fresh client with one reference in the slot its id names |
| ClientTables.ClientTable.GetClient | src/networking/TCPServer.h:541-555 | the live client of that id with one more reference, or nothing |
| ClientTables.ClientTable.TerminateClient | src/networking/TCPServer.h:557-567 | the slot is empty and its id free; a stale id changes nothing |
| Server.TcpServer.OnAccept | src/networking/TCPServer.h:205-219 | the account and the table after an accepted connection |
| Server.TcpServer.OnReceive | src/networking/TCPServer.h:234-263 | the account, the table and the worker's queue after a completed receive |
| Server.TcpServer.OnSend | src/networking/TCPServer.h:234-284 | the account and the table after a completed send |
| Server.TcpServer.Send | src/networking/TCPServer.h:294-339 | the account and the table after `send`, for any id |
| Server.TcpServer.FeedClient | src/networking/TCPServer.h:597-599 | `HttpAssembler.Feed` on the client's own buffer returns what the transition system allows, and leaves buffer, account and assembler state joined |
| Server.TcpServer.Receive | src/networking/TCPServer.h:256-262 | bytes that arrive stand behind what the buffer holds, and the completed receive keeps them joined with the account |
| Server.TcpServer.NewcomerJoined | src/networking/TCPServer.h:519-539 | a client whose id was never fed starts joined |
| Server.TcpServer.Process | src/networking/TCPServer.h:601-619 | what follows `feed`: the error text and the hang-up, or the requests in order and the next receive |
| Server.TcpServer.QueueRequests | src/networking/TCPServer.h:609-613 | the loop queues every message for the client, in order |
| Server.TcpServer.Serve | src/networking/TCPServer.h:597-626 | a borrowed client is fed, answered and released, and its buffer, account and assembler state are joined again |
| Server.TcpServer.AssembleNext | src/networking/TCPServer.h:588-627 | one turn of a worker: the queue, the account, the table, and the requests that `feed` brought out; the client is joined again for the next turn |
| ServerSteps.SendIsSteps | src/networking/TCPServer.h:294-333 | `send` run alone is borrow, send, release, with the account and the table its method ensures |
| ServerSteps.AcceptIsSteps | src/networking/TCPServer.h:205-219 | an accepted connection is accept, post, release, with the account and the table its method ensures |
| ServerSteps.ReceiveIsStep | src/networking/TCPServer.h:234-263 | a completed receive is one step, with the account, the table and the queues its method ensures |
| ServerSteps.SendDoneIsStep | src/networking/TCPServer.h:234-284 | a completed send is one step, with the account and the table its method ensures |
| ServerSteps.AssembleIsSteps | src/networking/TCPServer.h:588-627 | a worker's turn is take, fetch, feed, answer, release, with the account, the table, the queues and the requests its method ensures |
| ServerSafety.PostKeeps | src/networking/TCPServer.h:813-847 | posting a receive keeps the client's invariant |
| ServerSafety.DropKeeps | src/networking/TCPServer.h:327-332 | giving up a reference, with termination at zero, keeps it |
| ServerSafety.ReceiveKeeps | src/networking/TCPServer.h:234-263 | a completed receive keeps it |
| ServerSafety.SendKeeps | src/networking/TCPServer.h:301-325 | queuing a message keeps it |
| ServerSafety.SentDelivered | src/networking/TCPServer.h:266-283 | a completed send moves the front of the queue to what is completed, and the next send is of the new front |
| ServerSafety.FeedKeeps | src/networking/TCPServer.h:597-613 | feeding keeps it: requests are the parse of what was fed |
| ServerSafety.HangUpKeeps | src/networking/TCPServer.h:601-605 | hanging up on a rejected client keeps it |
| ServerSafety.TurnKeeps | src/networking/TCPServer.h:588-629 | a thread's step changes what holds of no other client |
| ServerSafety.TakenKeeps | src/networking/TCPServer.h:592-592 | taking an id off a queue hands the received bytes to the worker |
| ServerSafety.AcceptKeeps | src/networking/TCPServer.h:205-212 | a new connection keeps the invariant of all |
| ServerRuns.RunKeeps | src/networking/TCPServer.h:179-333 | the invariant holds after every run of events in any order |
| ServerRuns.CompletionsFindTheirClient | src/networking/TCPServer.h:234-264 | whatever pends is for a live client, and a pending send is of the front of its queue |
| ServerRuns.BorrowersFindTheirClient | src/networking/TCPServer.h:541-555 | no thread refers to a client that is gone |
| ServerRuns.CountIsExact | src/networking/Client.cpp:31-54 | references are pending receives, pending sends and borrowers; a disconnecting client has at least one |
| ServerRuns.OutboundConserved | src/networking/TCPServer.h:294-333 | completed bytes and queued chunks are the accepted messages; at most one send pends, exactly one if something is queued and the client is not disconnecting; the over-length branch is never taken |
| ServerRuns.OneOwner | src/networking/TCPServer.h:588-629 | of an untainted id the receive buffer has exactly one owner while the client is live and neither disconnecting nor rejected, and none otherwise |
| ServerRuns.QueuedIsLive | src/networking/TCPServer.h:256-262 | of an untainted id, a queued id is of a live client with no receive pending, queued once, with the worker its id selects |
| ServerRuns.FailedSendStrandsId | src/networking/TCPServer.h:320-332 | a run in which a failed send leaves a queued id without a client, and then with another one |
| ServerOwnership.OwnershipExactness | src/networking/TCPServer.h:264-332 | throughout a run the receive buffer of an id is owned rightly if and only if no send of that id failed to be posted while its client was neither disconnecting nor rejected |
| ServerOwnership.LosingBreaksOwnership | src/networking/TCPServer.h:849-884 | such a failure, in `send` or behind a completed send, leaves the buffer owned by a client on its way out or by none |
| ServerOwnership.TaintStep | src/networking/TCPServer.h:849-884 | an id is tainted by exactly these failures, and stays so until a new client gets it while it is not stranded |
| ServerOwnership.AcceptTaint | src/networking/TCPServer.h:519-539 | a new client inherits the mark if and only if its id is still queued or in its worker's hand |
| ServerOwnership.RejectedSendIsHarmless | src/networking/TCPServer.h:601-605 | the error text of a rejected client may fail to be posted: ownership holds before and after |
| ServerRuns.RequestsInOrder | src/networking/TCPServer.h:588-629 | for every untainted client whose id had a parser in its initial state, the requests queued since it connected are exactly the fold over the bytes fed, up to the batch at which that fails; it is rejected if and only if it fails |
| ServerRuns.FirstClientIsClean | src/networking/TCPServer.h:519-539 | the first client of an id is such a client, and all requests of the id are its own |
| ServerRuns.RoomToReceive | src/networking/TCPServer.h:820-822 | a pending receive has a window of at least one byte behind everything held |
| ServerRuns.PipelineArrives | src/networking/TCPServer.h:588-629 | clean pipelined requests with short lines, plain or chunked, are queued as what is due for them, as far as they have come, under every interleaving and fragmentation, and their client is not rejected |
| ServerRuns.SlotsInOrder | src/networking/TCPServer.h:506-567 | in every run the free ids are the empty slots and the table is as long as the peak of live clients |

## Left out

- Connection.Receive: the compaction as written is what it is proved against; the repaired compaction is only a mode of the fold.
- ServerRuns.RoomToReceive: for clients that found the parser of their id in its initial state, because the assembler's state of an id outlives its client and a later client may inherit another.
- Server.TcpServer.AssembleNext: asks that a live client's buffer and parser agree, as they do from the first client of an id on; what `feed` makes of a parser that an earlier client left in the middle of a message is not modelled.
- The state of an id that is used again: `m_client_states` is never cleared, and what a second client inherits is left open.
- `headerContainsValue`, whose two arguments to `containsToken` are swapped.
- `m_assemble_chunked_requests = true`, whose branch is empty.
- `addBytesReceived`, which nothing calls, and the count of last received bytes, which `feed` is given and ignores.
- Responses beyond their status line, `serializeResponse`, and the text of error responses, which is any string here.
- Winsock, completion ports, sockets, addresses and partial sends: a post succeeds or fails, a completion is an event.
- Threads, mutexes, condition variables and memory ordering: steps are atomic and queues are sequences.
- Overflow of counters that grow by one per byte: they are bounded by the limits and by the buffer, and are unbounded integers here; limits and parsed numbers have the range of `int`.
- Overflow of `body_lenght` in a chunked body (`src/networking/http/HttpAssembler.cpp:462`): it grows by whole chunks over any number of them, no limit bounds it, and it leaves the range of `int` after 2 GiB in one request; nothing reads it before it is reset.
- `std::from_chars` beyond a base-10 or base-16 digit prefix with an optional minus sign and overflow.
- The buffer length is fixed and positive for a run; `setClientBufferLen` during a run is not modelled.
- Console, loggers, configuration, commands and `DefaultMessageAssembler`.
