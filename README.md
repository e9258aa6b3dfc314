# TFTP client: a verified Dafny model

This project models the core of a small TFTP client written in C (RFC 1350), as
given by `tftp.h` and `tftp.c`:

- **the wire codec** (`codec.dfy`): the five packet kinds RRQ, WRQ, DATA, ACK and ERROR.
  Each is laid out as in section 5 of RFC 1350: 16-bit big-endian fields, NUL-terminated
  strings, DATA payloads of at most 512 bytes. Encode and decode are pure functions over
  byte sequences. The model proves a round trip, that decoding accepts only exact
  encodings, and the header's length formulas.
- **the header constants and the error-code lookup** (`tftp_defs.dfy`): opcodes,
  `BLOCK_SIZE`, the mode strings, the 16-bit truncation of block numbers, and
  `tftp_err_to_str` over the eight-entry error table of RFC 1350's appendix.
- **the transfer engine** (`engine.dfy`, `engine_props.dfy`): the lockstep state
  machine of sections 2, 4 and 6 of RFC 1350 as pure functions over a session record.
  A request opens the transfer, each event (timeout or received datagram) is one step,
  and `Run` folds a sequence of events. The lemmas cover the invariant every step keeps,
  retransmission of the stored message, bounded retries, duplicate handling, block-number
  wrap-around, and a 1025-byte download and an empty upload worked through.
- **the connection handle** (`client.dfy`): `struct tftp_conn` as the class `Conn`, with
  the fixed 516-byte message buffer (`MSGBUF_SIZE`) as an array. The model covers
  `tftp_connect`'s validation and initial state, the send operations (`tftp_send_rrq` /
  `tftp_send_wrq`, `tftp_send_ack`, and `tftp_send_data` with its negative-length resend
  option), one handler per event, and the `tftp_transfer` loop. Every method is proved
  against the engine's functions: `Abs()` of the new state and the datagrams sent equal
  what the function prescribes.
- **the program entry** (`cli.dfy`): `main`'s scan of `argv` for `-g`/`-p`, the usage
  error, connect, and transfer.

Sockets, files and time are abstracted:

- The datagrams handed to the socket are appended to `Conn.sent`.
- What the socket delivers within the timeout arrives as `Event.Arrived(bytes)`, and a
  `select` timeout as `Event.TimedOut`.
- The local file is a byte sequence. Whether it can be opened is the `opens` parameter.
- The retry budget is the `maxRetries` parameter.

C strings are `CString`, byte sequences without a NUL, since a `char *` cannot carry one.

Where the C code is a stub (the bodies of the send functions and the transfer loop), the
model implements what the source's comments describe, completed by RFC 1350:

- a timeout resends the stored last message unchanged, while retries remain;
- DATA for the next block is written and acknowledged;
- a block shorter than 512 bytes ends a download once it is acknowledged;
- the ACK of the block just sent releases the next block (block 0 acknowledges the WRQ);
- the ACK of a short block ends an upload;
- a DATA or ACK with any other block number resends the last message without writing
  or advancing;
- an ERROR ends the transfer with the peer's code and text;
- a datagram whose opcode the loop has no case for leaves the loop through `out` and
  skips the total-bytes report. This covers a request packet, any opcode outside 3..5,
  and a datagram too short to carry an opcode. The transfer ends as `UnknownMessage`.
- a datagram with opcode DATA, ACK or ERROR that does not decode enters that opcode's
  case, just as the `switch` dispatches on the opcode alone. Examples are a truncated
  header, a payload over 512 bytes, or an ERROR text without its NUL. The model ends the
  transfer there as `Malformed`. It leaves the loop normally, so the total is still
  reported.

Block numbers are compared by raw 16-bit equality. The retry count is reset only when
the transfer makes progress. This is the model's own choice; the source's comments leave
it open.

Where the code fixes a detail, the model follows the code:

- The handle's `blocknr` is an `int`, and only the wire field is 16 bits wide
  (`WireBlock(n) = n % 65536`).
- Mode strings are passed through opaquely.
- The type check of `tftp_connect` accepts exactly 0 (get) and 1 (put).

The code's `switch` has DATA and ACK cases regardless of direction. The model does not
let the wrong kind drive the transfer: a DATA while putting, or an ACK while getting,
ends it as `UnexpectedKind`. A DATA packet means nothing to a sender in RFC 1350's
lockstep (section 2), nor an ACK to a receiver. This is the model's own choice.

## Model

| member | source | states |
|---|---|---|
| TftpDefs.ErrToStr | tftp.h:109-115 | no string (NULL) exactly when the code is below 0 or above 7; otherwise the table entry for that code |
| TftpDefs.ErrToStrTable | tftp.h:36-45 | the lookup gives the eight texts of the table for codes 0..7, which are pairwise different |
| TftpDefs.WireBlockSucc | tftp.h:82 | the 16-bit block field counts modulo 2^16: after 65535 comes 0, otherwise n+1 |
| Codec.Opcode | tftp.h:20-24 | the five packet kinds have the distinct opcodes 1..5, one per kind |
| Codec.Encode | tftp.h:50-107 | an encoding starts with the 16-bit opcode; a request is `2 + strlen(f) + strlen(m) + 2` bytes, a DATA packet is its 4-byte header plus the payload and so at most 516 bytes, an ACK 4 bytes, an ERROR 4 bytes plus its text and a NUL |
| Codec.FindNul | tftp.h:64 | the first NUL in a buffer, with no NUL before it, or none when the buffer holds none (the `strlen` of a terminated field) |
| Codec.Decode | tftp.h:50-107 | buffers under 2 bytes, or DATA/ACK/ERROR under 4, are Truncated; an unknown opcode is rejected exactly when the first word is not 1..5; a decoded packet carries the opcode found in the buffer |
| Codec.RoundTrip | tftp.h:55-107 | every packet decodes back to itself: both strings of a request, block number and payload of DATA, block number of an ACK for every n in 0..65535, code and text of ERROR |
| Codec.DecodeCanonical | tftp.h:55-107 | a buffer that decodes is exactly the encoding of the packet it decodes to (no trailing bytes, no unterminated strings) |
| Codec.DecodeIffEncode | tftp.h:55-107 | a buffer decodes to m if and only if it is m's encoding |
| Codec.FitsMsgBuf | tftp.c:24 | every DATA and ACK fits the 516-byte message buffer; an ERROR fits exactly when its text has at most 511 bytes, a request when its two strings have at most 512 together |
| Codec.BlockFieldWraps | tftp.h:80-96 | for every `int` block counter n and every payload, bytes 2..3 of DATA and of ACK are `(n / 256) % 256` and `n % 256`: the low 16 bits of the counter, high byte first |
| Engine.NextChunk | tftp.c:165-170 | the next block read from the file is the up to 512 bytes at the read position; it is short exactly when it reaches the end of the file |
| EngineProps.InitInv | tftp.c:111-116 | a fresh handle (block 0, nothing sent, empty file when getting) satisfies the transfer invariant |
| EngineProps.StartInv | tftp.c:209-212 | sending the opening request keeps the invariant |
| EngineProps.StepInv | tftp.c:217-243 | every step keeps the invariant: getting, the file is 512 bytes per acknowledged block and the last message is that block's ACK; putting, the last DATA is the file slice ending at the read position, earlier blocks are full, and a short block only ends the file |
| EngineProps.RunInv | tftp.c:217-243 | the invariant holds after any sequence of events |
| EngineProps.RunKeeps | tftp.c:36-37 | a transfer never changes its direction, nor the file it is putting |
| EngineProps.ExchangeDone | tftp.c:243 | a finished upload has sent the whole file (position and byte total equal its length); a finished download has written full blocks followed by one short block |
| EngineProps.QuietAfterEnd | tftp.c:245-247 | once Done or Failed, no event sends anything or changes the state |
| EngineProps.TimeoutResendsLast | tftp.c:218-221 | a timeout within the budget resends the stored last message unchanged and only counts the retry; past the budget the transfer fails with Timeout and sends nothing |
| EngineProps.TimeoutsExhaust | tftp.c:218-221 | with n retries left, n+1 consecutive timeouts resend the last message n times and then end in Failed(Timeout) |
| EngineProps.DuplicateDataNotWritten | tftp.c:228-230 | a DATA packet whose block number is not the next one is not written; the last ACK is sent again |
| EngineProps.DuplicateAckResends | tftp.c:231-233 | an ACK for anything but the block just sent does not advance; the same DATA is sent again |
| EngineProps.AcceptData | tftp.c:228-230 | DATA for the next block appends the payload, advances the block number, resets retries, sends and stores the ACK for that block, and is Done when the payload is shorter than 512 |
| EngineProps.AckReleasesNextBlock | tftp.c:231-233 | the ACK of the block just sent (block 0 for the WRQ), if that block was not final, sends and stores DATA for the next block number carrying the next file chunk |
| EngineProps.UnhandledFails | tftp.c:237-239 | a request packet, or a datagram whose opcode is not 3..5 (or that has no opcode at all), ends the transfer as UnknownMessage with nothing sent |
| EngineProps.MalformedFails | tftp.c:227-236 | a datagram with opcode DATA, ACK or ERROR that does not decode ends the transfer as Malformed, not UnknownMessage, with nothing sent |
| EngineProps.LoopCaseNotUnknown | tftp.c:227-239 | a datagram whose opcode is DATA, ACK or ERROR never takes the unknown-message exit, whether or not it decodes |
| EngineProps.DataAcrossWrap | tftp.h:82 | after block 65535, DATA block 0 is accepted as the next block, written and acknowledged with ACK 0 |
| EngineProps.ErrorEndsTransfer | tftp.c:234-236 | an ERROR packet ends the transfer at once with the peer's code and text, nothing sent |
| EngineProps.DownloadThreeBlocks | tftp.c:217-243 | getting blocks of 512, 512 and 1 bytes: RRQ, then ACKs 1, 2, 3 in order, exactly those 1025 bytes written, Done |
| EngineProps.UploadEmptyFile | tftp.c:217-243 | putting an empty file: WRQ, one empty DATA block 1 after ACK 0, Done on ACK 1 with nothing more sent |
| Client.KindOf | tftp.c:78-85 | type 1 is put, type 0 is get, and every other value is invalid |
| Client.Conn.constructor | tftp.c:111-116 | the handle stores type, file name and mode, block 0, an empty last message, a 516-byte buffer |
| Client.Conn.Resend | tftp.c:172-176 | the buffered message is sent again, nothing rebuilt, state unchanged |
| Client.Conn.SendRequest | tftp.c:121-149 | formats the RRQ (get) or WRQ (put) into the buffer, sends it and awaits DATA or ACK, as the engine's Start prescribes; returns the number of bytes sent, `2 + strlen(fname) + strlen(mode) + 2`, or a negative value when nothing was sent |
| Client.Conn.SendAck | tftp.c:152-163 | formats and sends the 4-byte ACK of the current block, keeping it as the last message |
| Client.Conn.SendData | tftp.c:165-182 | a negative length resends the buffered message unchanged and returns its length; otherwise it formats and sends DATA for the current block with the next `length` bytes of the file and returns `4 + length` |
| Client.Conn.HandleTimeout | tftp.c:218-221 | resends the last block (put) or last ACK (get) as OnTimeout prescribes |
| Client.Conn.HandleData | tftp.c:228-230 | received DATA: the state and the datagrams sent are those of OnData |
| Client.Conn.AcceptBlock | tftp.c:228-230 | the expected block is appended to the file and counted, the block number advances, retries reset, its ACK is sent and kept; a block under 512 bytes ends the transfer |
| Client.Conn.HandleAck | tftp.c:231-233 | received ACK: the state and the datagrams sent are those of OnAck |
| Client.Conn.SendNextBlock | tftp.c:231-233 | the next chunk of the file is sent and kept as DATA for the next block number; read position and byte total advance by its length, retries reset |
| Client.Conn.HandleError | tftp.c:234-236 | received ERROR: Failed with the peer's code and text, nothing sent |
| Client.Conn.HandleOther | tftp.c:237-239 | unknown message type: Failed(UnknownMessage), nothing sent |
| Client.Conn.HandleMalformed | tftp.c:227-236 | a DATA, ACK or ERROR opcode whose packet does not decode: Failed(Malformed), nothing sent |
| Client.Conn.HandleDatagram | tftp.c:225-241 | dispatches on the opcode as the engine's Receive does: decoded DATA, ACK and ERROR to their handlers, an undecodable DATA/ACK/ERROR opcode to the Malformed exit, everything else to the unknown-message exit |
| Client.Conn.HandleEvent | tftp.c:217-241 | one iteration of the loop: the new state and what was sent are the engine's Step |
| Client.Connect | tftp.c:59-119 | no handle exactly when file name, mode or host is absent, the type is neither get nor put, or the file cannot be opened; otherwise a fresh handle opening the file "rb" for put and "wb" for get, at block 0, with an all-zero message buffer |
| Client.LoopStep | tftp.c:217-241 | one handled event leaves, as the rest of the run, exactly the run of the remaining events from the new state |
| Client.Loop | tftp.c:217-243 | the loop's final state and datagrams are those of Run over the events |
| Client.Perform | tftp.c:209-243 | the request followed by the loop yields exactly the engine's Exchange: final state and every datagram sent |
| Client.Transfer | tftp.c:188-248 | a null handle gives -1 and does nothing; otherwise the result is the request followed by the loop (the engine's Exchange), 0 exactly when Done and -1 otherwise, and the byte total is reported unless the loop exited through an unknown message type; a malformed DATA/ACK/ERROR still reports it |
| Cli.FirstFlag | tftp.c:261-278 | the position of the first `-g` or `-p` in argv, program name included, with none before it; none when there is no flag |
| Cli.ScanArgs | tftp.c:260-278 | the first flag sets the type (0 for `-g`, 1 for `-p`) and the next two arguments become file and host (absent past the end); without a flag the type is -1 and both are absent |
| Cli.Execute | tftp.c:250-306 | returns -1 with nothing sent when no file or host follows a flag (usage) or the file cannot be opened; otherwise sends exactly the transfer in "octet" mode and returns 0 exactly when it is Done |

## Left out

- Sockets, `select`, `gethostbyname`/`hostent`, the peer address and `htons` port setup
  (tftp.c:73-76, 94-109, 204-207). These are network I/O. Datagrams sent are recorded in
  `Conn.sent`, and receptions and timeouts are events. The host name is only checked for
  presence.
- `malloc` failure in `tftp_connect` (tftp.c:68-71). Allocation is assumed to succeed.
- `fopen`/`fclose`, file reads and writes, `tftp_close` and `free` (tftp.c:47-56,
  78-92). These are host resources. The file is a byte sequence, and fopen's success is a
  parameter. Local write errors are not modelled.
- The memory leak of the handle on the invalid-type path (tftp.c:82-85) has no
  counterpart, because memory is not modelled.
- The `printf`/`fprintf` diagnostics. The byte total printed at tftp.c:245 is the
  `report` result of `Transfer`.
- `TFTP_TIMEOUT` and real time (tftp.h:34). A timeout is an input event. The source has
  no retry limit, so the model takes it as the parameter `maxRetries`.
- netascii/mail translation (tftp.h:27-29). It is not implemented in the source. The mode
  is an opaque string.
- The OS-detection typedefs (tftp.h:4-16), which are platform plumbing.
- The stub return values of the send functions and the empty loop condition
  (tftp.c:133, 148, 162, 181, 227, 243). These are placeholders.
- Receiving into `msgbuf`. Received datagrams are event values. Receiving into the buffer
  would overwrite the message kept for retransmission.
- Datagrams longer than the buffer. `recvfrom` would truncate them; the decoder instead
  rejects a DATA payload over 512 bytes.
- Requests longer than the 516-byte buffer. The C code would overrun the buffer. The
  model does not send such a request and fails the transfer with `RequestTooLong`.
- `C int` overflow of `blocknr`. The handle's counter is unbounded.
- The scan of `argv` reads `argv[2]` one slot past the terminating NULL when the flag is
  the last argument. The model treats every slot from `argc` on as NULL. The outcome is
  the usage message either way, because the file name is then NULL.
- A duplicate DATA does not reset the retry count, and neither does any other resend
  triggered by a packet. Only progress (a new block written or acknowledged) resets it.
  So a peer that keeps repeating an old block cannot keep the transfer alive past the
  retry budget. The source's comments do not say when the count resets, because the
  source has no retry count.
