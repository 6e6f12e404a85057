# TFTP download client of the Q40 boot monitor, in Dafny

This project models the client side of the TFTP download built into the Q40
boot monitor (`tftp.c`). The model covers:

- how the read request is assembled, with its options `rollover`, `tsize`,
  `blksize` and `windowsize`;
- the ACK;
- the timer callback that retransmits and eventually gives up;
- the parsing of the server's option acknowledgement (OACK);
- the block-number, window and rollover handling of DATA messages;
- the opcode dispatch;
- the set-up of `tftp_receive`.

It also covers the tick arithmetic of the board header `q40hw.h` that the
engine uses to arm its timer (`TIMER_HZ`, `set_timer_ms`, `set_timer_sec`), and
the throughput figure printed at the end of a successful transfer.

The project has four modules:

- `Q40Timer` (`q40_timer.dfy`) holds the timer macros as pure functions. C's
  truncating `int` division is written out.
- `TftpWire` (`tftp_wire.dfy`) holds the byte formats:
  - big-endian 16-bit fields;
  - NUL-terminated strings;
  - `options_append` over a 1400-byte array;
  - the read request as built for any filename length, including the
    overflow behaviour of `options_append`;
  - the ACK;
  - the OACK key/value list and C's `atoi`.
- `TftpEngine` (`tftp_engine.dfy`) describes each callback as a function from
  the transfer state (`Conn`) to the new state. `Conn` holds:
  - the fields of `tftp_transfer_t`;
  - the sink's timer and remote port;
  - logs of the datagrams sent, the buffers written and the packets freed.

  The lemmas here state the protocol behaviour: the retransmit ceiling,
  acceptance of the expected block only, the window rule, rollover, the OACK
  effects, and the dispatch.
- `TftpTransfer` (`tftp_transfer.dfy`) mirrors the C structures as classes:
  - `Transfer` has the fields of `tftp_transfer_t`, updated in place.
  - `Sink` has the timer and the matched remote port.
  - Every callback is a method proved to change the objects exactly as the
    `TftpEngine` function says (`Model() == F(old(Model()))`) and to keep the
    invariant `Inv`.
  - Calls into the network stack and the file system are recorded in ghost
    logs. The outcome of `f_write` is a parameter.

## Model

| member | source | states |
|---|---|---|
| Q40Timer.MsPerTickIsFive | q40hw.h:7-8 | The timer runs at 200 Hz, so one tick is 5 ms. |
| Q40Timer.CDivBounds | q40hw.h:53 | The macro's C division truncates toward zero: below the exact quotient for a non-negative dividend, above it for a negative one. |
| Q40Timer.SetTimerMsRoundsUp | q40hw.h:53 | For a non-negative duration whose `msec + 4` fits in an `int`, `set_timer_ms` rounds up to whole ticks: the ticks cover the duration and exceed it by less than one tick. |
| Q40Timer.SetTimerMsExact | q40hw.h:53 | A duration that is a whole number of ticks, and does not overflow the macro's `int` addition, converts to exactly that number. |
| Q40Timer.EngineTimeouts | q40hw.h:53 | The engine's two timeouts, 1000 ms and 250 ms, are 200 and 50 ticks. |
| Q40Timer.SetTimerSecTicks | q40hw.h:54 | `set_timer_sec(s)` is `TIMER_HZ * s` ticks, the same as `set_timer_ms(1000 * s)`, for 0 <= s <= 2147483, where `s * 1000` and the conversion fit in an `int`. |
| Q40Timer.SetTimerSecNegative | q40hw.h:53-54 | For a negative argument, truncating division stops rounding up: `set_timer_sec(-1)` is -199 ticks. |
| Q40Timer.SetTimerMsMonotone | q40hw.h:53 | A longer duration never gives fewer ticks, negative durations included, for every duration whose `msec + 4` fits in an `int`. |
| TftpWire.BigEndian16RoundTrip | tftp.c:129-130 | `htons` encoding and decoding of 16-bit fields are inverses. |
| TftpWire.OptionsAppend | tftp.c:79-90 | If the string plus its NUL would reach offset 1400, returns 0 and leaves the buffer alone. Otherwise copies the string and its NUL at `offset`, returns the offset behind them and leaves the rest of the buffer unchanged. |
| TftpWire.NulFromAt | tftp.c:177-178 | The option scan from `i` stops at the first NUL, or at the end of the payload when there is none. |
| TftpWire.AppendAllJoin | tftp.c:79-90 | While nothing overflows, successive appends lay the strings out one after another, each NUL-terminated. |
| TftpWire.RequestTailLength | tftp.c:99-111 | The mode and the four option pairs take 51 bytes, or 49 without the final "8". |
| TftpWire.RrqLayout | tftp.c:92-120 | For a filename of at most 1347 bytes, the request is opcode 1 followed by the filename, "octet", rollover=0, tsize=0, blksize=1024 and windowsize=8, each NUL-terminated. It splits back into exactly those strings and is 54 bytes longer than the filename. |
| TftpWire.RrqEmptyAt1348 | tftp.c:98-117 | A 1348-byte filename makes the last append overflow, so the request is the bare opcode. |
| TftpWire.RrqLongFilename | tftp.c:98-117 | A filename of 1399 bytes or more is dropped by the first append, and the request carries only the fixed strings, starting with "octet". |
| TftpWire.AckMessage | tftp.c:122-130 | An ACK is 4 bytes: opcode 4, then the block number. Both read back. |
| TftpWire.ParseOptionsStep | tftp.c:174-188 | When the option and its value both end in a NUL before the end of the payload, that pair is parsed and parsing resumes behind it. |
| TftpWire.ParseOptionsEnd | tftp.c:177-187 | Parsing stops when the option or its value runs to the end of the payload. |
| TftpWire.ParseEncodeOptions | tftp.c:174-200 | The OACK parser returns exactly the encoded (option, value) pairs, in order. Trailing bytes without a NUL are ignored. |
| TftpWire.AtoiDecimal | tftp.c:190 | `atoi` returns the value of a decimal number followed by any non-digit. |
| TftpWire.DigitsValueDecimal | tftp.c:190 | The digit value of a number's decimal digits is the number. |
| TftpWire.AtoiRequested | tftp.c:190 | The values the client asks for ("0", "1024", "8") read back as 0, 1024 and 8. |
| TftpEngine.Initial | tftp.c:293-302 | The zeroed record with block size 512 and window 1 satisfies the invariant. |
| TftpEngine.OnTimerInv | tftp.c:136-161 | Timer expiry keeps the invariant: per-block count within 0..11, counts not negative, success only on completion. |
| TftpEngine.OnOptionsAckInv | tftp.c:163-208 | OACK handling keeps the invariant. |
| TftpEngine.OnDataInv | tftp.c:210-248 | DATA handling keeps the invariant. |
| TftpEngine.OnPacketInv | tftp.c:250-286 | Packet reception keeps the invariant. |
| TftpEngine.TimerExpiry | tftp.c:136-161 | See "Timer expiry" below the table. |
| TftpEngine.CountUp | tftp.c:142-160 | From per-block count k, n expiries each send one datagram while k + n <= 11. Past that the transfer is failed, having sent 11 - k datagrams. |
| TftpEngine.StaysCompleted | tftp.c:142-149 | Once the transfer is completed (and, at the ceiling, marked failed), further expiries change nothing. |
| TftpEngine.RetransmitCeiling | tftp.c:142-160 | From a fresh block, the first 11 expiries retransmit and the transfer goes on. The 12th fails it, and nothing more is ever sent. |
| TftpEngine.ApplyParsedStep | tftp.c:174-198 | One round of the OACK loop applies the pair the parser finds next, before the rest. |
| TftpEngine.UnknownOptionsIgnored | tftp.c:191-198 | Keys other than rollover, tsize, blksize and windowsize leave every negotiated value alone. |
| TftpEngine.ApplyBlockAndWindow | tftp.c:190-198 | "blksize"="256" then "windowsize"="2" set the block size to 256 and the window to 2, and nothing else. |
| TftpEngine.OptionsAckEffects | tftp.c:204-207 | After an OACK, the last block and last ACK are 0 and exactly one ACK of block 0 is sent. The timer is armed for 50 ticks. Counters, flags and data are unchanged. |
| TftpEngine.OptionsAckExample | tftp.c:163-208 | An OACK carrying blksize=256 and windowsize=2 negotiates those values and is answered by ACK 0. |
| TftpEngine.ExpectedBlockWraps | tftp.c:216-220 | The expected block is the next one, and after 65535 the rollover value. |
| TftpEngine.AcceptFields | tftp.c:225-242 | See "Accepting a block" below the table. |
| TftpEngine.TakeBlockFields | tftp.c:216-243 | The block check changes only the last block, the per-block count and what accepting a block changes. |
| TftpEngine.DataBlock | tftp.c:210-248 | See "Handling a DATA message" below the table. |
| TftpEngine.OnDataFrame | tftp.c:210-248 | DATA leaves the filename, the options, the started flag, the total count, the remote port and the freed packets unchanged. |
| TftpEngine.DataBlockCompletion | tftp.c:225-242 | A failed write of a non-empty block fails the transfer. Otherwise a short block completes it successfully, and a full block leaves it running. |
| TftpEngine.WindowAck | tftp.c:245-246 | After DATA, an ACK of the last block is sent, and becomes the last ACK, exactly when last block >= last ACK + window. Otherwise nothing is sent. |
| TftpEngine.FullBlockStep | tftp.c:210-248 | A full block after the last one, written successfully, becomes the last block, keeps the transfer running, and is acknowledged only by the window rule. |
| TftpEngine.StreamWithin | tftp.c:245-246 | Starting with k blocks unacknowledged, n more full blocks bring no ACK while k + n < window. When k + n reaches the window, a single ACK of the last block is sent. |
| TftpEngine.FirstAckAtWindow | tftp.c:245-246 | With nothing unacknowledged, the first ACK goes out on the window-th block and not before. |
| TftpEngine.WindowOfFour | tftp.c:245-246 | With window 4 from block 0, three blocks send nothing and the fourth is acknowledged with ACK 4. |
| TftpEngine.RolloverAccepted | tftp.c:217-223 | With rollover value 0, block 0 is accepted after block 65535. |
| TftpEngine.FinalBlockUnacknowledged | tftp.c:226-247 | A short last block that does not reach the window boundary completes the transfer without sending anything, and no later timer expiry sends anything either. |
| TftpEngine.WindowStallsAfterWrap | tftp.c:245-246 | See "The window test after a wrap" below the table. |
| TftpEngine.PacketDispatch | tftp.c:250-286 | The first reply locks the sink on to its source port, and later ones leave the port alone. An ERROR or unknown opcode fails the transfer without sending anything. Every packet is freed exactly once. |
| TftpEngine.StartSendsRequest | tftp.c:301-316 | Starting a fresh transfer sends exactly the read request to port 69 and arms 200 ticks. Both counters stay at 0, with block size 512 and window 1. |
| TftpEngine.ElapsedTenths | tftp.c:337-340 | The elapsed time in tenths of a second is at least 1. |
| TftpEngine.ElapsedWithoutWrap | tftp.c:337-340 | Without a counter wrap, and once a tenth of a second has passed, the elapsed tenths are the tick difference divided by 20, rounded down. |
| TftpEngine.RateRoundsDown | tftp.c:341 | When the product does not overflow 32 bits, the rate is (bytes per tenth * 100) / 1024, rounded down: tenths of a KiB per second. |
| TftpTransfer.Sink.constructor | tftp.c:296-299 | A new sink matches UDP from the given server to the given local port, with remote port 0 and timer 0, as a zeroed sink has them. |
| TftpTransfer.Transfer.Init | tftp.c:292-304 | The record is zeroed except block size 512 and window 1. The local port is 8192 plus the low 15 bits of the tick counter, within 8192..40959. |
| TftpTransfer.Transfer.CreateRrq | tftp.c:92-120 | The ten `options_append` calls into a fresh 1400-byte array, behind opcode 1, produce `RrqMessage(filename)`, sent to port 69. |
| TftpTransfer.Transfer.CreateAck | tftp.c:122-134 | Builds the ACK of the last block and makes the last block the last ACK. Nothing else changes. |
| TftpTransfer.Transfer.TimerExpired | tftp.c:136-161 | Updates record, sink and logs exactly as `OnTimer` and keeps the invariant. |
| TftpTransfer.Transfer.Resend | tftp.c:151-160 | Re-arms the timer and resends (the RRQ before the first reply, an ACK after it). Both counters go up by one, as `Resend`. |
| TftpTransfer.Transfer.SkipString | tftp.c:177-178 | The `ptr` loop ends at the first NUL at or after `from`, or at the end of the payload. |
| TftpTransfer.Transfer.SetOption | tftp.c:190-198 | See "Applying an option" below the table. |
| TftpTransfer.Transfer.ReadOptions | tftp.c:169-200 | The option loop leaves the negotiated values equal to the old ones with every parsed pair of the payload applied in order. |
| TftpTransfer.Transfer.ProcessOptionsAck | tftp.c:163-208 | Updates the objects exactly as `OnOptionsAck` (options applied, ACK 0 sent, data timeout armed) and keeps the invariant. |
| TftpTransfer.Transfer.AcceptBlock | tftp.c:225-242 | Writes and counts the data, fails on a write error and completes on a short block, exactly as `Accept`. |
| TftpTransfer.Transfer.TakeDataBlock | tftp.c:216-243 | Computes the expected block with 16-bit wrap and rollover, and takes only that block, as `TakeBlock`. |
| TftpTransfer.Transfer.ProcessData | tftp.c:210-248 | Updates the objects exactly as `OnData` (block check, window ACK, 250 ms timer) and keeps the invariant. |
| TftpTransfer.Transfer.Dispatch | tftp.c:264-283 | OACK and DATA go to their handlers. ERROR and any other opcode fail the transfer. |
| TftpTransfer.Transfer.PacketReceived | tftp.c:250-286 | Locks on to the server's port on the first reply, dispatches and frees the packet, as `OnPacket`. Keeps the invariant. |
| TftpTransfer.Transfer.Start | tftp.c:315-316 | The synthesised expiry sends the read request, then both counters are reset to 0. |
| TftpTransfer.Receive | tftp.c:288-316 | Sets up the transfer and, when the file opened, starts it. The result is always true. |

Notes on rows whose contract is too long for a cell:

- **Timer expiry** (`TftpEngine.TimerExpiry`). Past 10 retransmissions the
  transfer fails silently. A completed transfer is untouched. Otherwise:
  - before the first reply, the request is resent with 200 ticks;
  - after it, an ACK of the last block is resent with 50 ticks;
  - both counters go up by one.
- **Accepting a block** (`TftpEngine.AcceptFields`). Accepting a block changes
  only the writes, the byte count and the two flags:
  - non-empty data is written and counted, even when the write fails;
  - a failed write fails the transfer;
  - a block shorter than the block size completes the transfer.
- **Handling a DATA message** (`TftpEngine.DataBlock`). The expected block
  becomes the last block, restarts the per-block count, and is written and
  counted. Any other block changes none of these. Either way the timer is 50
  ticks.
- **The window test after a wrap** (`TftpEngine.WindowStallsAfterWrap`). Once
  last ACK + window exceeds 65535, no DATA message sends an ACK. After a wrap
  to block 0 the last ACK then exceeds the last block.
- **Applying an option** (`TftpTransfer.Transfer.SetOption`). A recognised key
  sets its field to the `atoi` of the value, with rollover and blksize
  truncated to 16 bits. Any other key changes nothing.

## Behaviour modelled as coded

- The 16-bit block counters wrap, but the window test adds in `int`. Once the
  last ACK plus the window size passes 65535, no DATA message acknowledges
  again; only a timer expiry or an OACK sends an ACK. The last ACK can then
  exceed the last block, so "last ACK <= last block" is not an invariant of the code (`TftpEngine.WindowStallsAfterWrap`).
- The final ACK of RFC 1350 is sent only when the last block lands on a window
  boundary. A short block before it completes the transfer, the window test
  does not fire, and a completed transfer ignores its timer, so the last DATA
  message is never acknowledged: with window 8 and last ACK 8, a short block
  10 ends the transfer silently (`TftpEngine.FinalBlockUnacknowledged`).
- The per-block counter is tested with `> 10` before it is incremented. Eleven
  retransmissions go out, and the twelfth expiry fails the transfer
  (`TftpEngine.RetransmitCeiling`).
- `options_append` returns offset 0 on overflow. Later appends therefore
  restart at the beginning of the buffer:
  - a filename of 1399 bytes or more vanishes from the request, which then
    names the file "octet";
  - a filename of exactly 1348 bytes leaves only the opcode
    (`TftpWire.RrqLongFilename`, `TftpWire.RrqEmptyAt1348`).

## Left out

- The wait loop of `tftp_receive` (`net_pump`, the console abort on Q/q, the progress report) and the closing of the file and the sink: they are I/O and scheduling around the callbacks, which are modelled one by one.
- Every `printf` and `pretty_dump_memory`: console output only.
- `f_open`, `f_write`, `f_close`, `f_errmsg`: the file system is not part of this model. The outcome of opening and of each write is a parameter, and the data handed to `f_write` is logged.
- `net_tx`, `packet_create_for_sink`, `packet_free`, `net_add_packet_sink`, `net_remove_packet_sink`: the network layer is not part of this model. Sent datagrams and freed packets are logged. The sink's re-registration when the port is locked on is not modelled.
- `set_timer_ticks`: its body is not part of this model. The sink's timer records the tick count it is called with, not an absolute deadline.
- `Receive`: models `tftp_receive` only up to the start of the transfer; the final throughput arithmetic is modelled separately (`ElapsedTenths`, `RateTenthsKiB`).
- The UDP destination of datagrams other than the read request is abstracted as "the server's port as the sink has it", and the sink's IP/interface matching as constants.
- `TftpEngine.Readable`: packets shorter than the header fields the code reads (2 bytes, or 4 for DATA) are excluded, because the C code then reads bytes past the packet whose values are not defined.
- The OACK scan dereferences `*ptr` before testing `ptr < end`, so it may read one byte past the payload; the model stops at the end of the payload and never reads that byte.
- `Atoi`: C's `atoi` is modelled on unbounded integers; values that overflow `int` (undefined behaviour in C) are not modelled.
- `int` overflow of `bytes_received`, `total_size`, `window_size` and the retransmit counters: integers are unbounded in the model.
- `Q40Timer.SetTimerMs`: the macros compute in 32-bit `int`, where `msec + TIMER_MS_PER_TICK - 1` overflows for `msec` above 2147483643 and `sec * 1000` for `sec` above 2147483 (undefined behaviour in C). The functions compute on unbounded integers, and the lemmas about them are stated only inside those ranges (`MsInRange`, `SecInRange`). The conversion of the result to the `uint32_t` parameter of `set_timer_ticks` is not modelled either; for the engine's durations the value is positive.
- `TftpTransfer.Sink.constructor`: `packet_sink_alloc` is not part of this model. The new sink is assumed zeroed, so its remote port and timer start at 0.
- `strdup`, `malloc`, `free` of the record and the filenames: memory management only.
