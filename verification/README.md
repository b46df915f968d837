# Driver and protocol models

Dafny models of the protocol and driver code in this repository that carries the most state, with proofs of what it
guarantees over whole runs and of the exact conditions under which it does not. `dafny verify dfyconfig.toml` checks
everything.

## What is modelled

**The RockUSB command engine** (`rk3399/debug/usb/cmd_rockusb.c`, DWC3 configuration) is the core. A host sends
31-byte command blocks (CBWs), moves data in one direction, and gets a 13-byte status (CSW). The engine polls a
seven-state machine over two ping-pong buffers per direction, completion records and a one-window prefetch cache.

* `RockusbModel` is the engine as a step function on values: every handler, the controller's completions (good and
  failed), and a history of what crossed the wire. `BlockStore` is the medium behind it: 512-byte logical blocks and
  528-byte pages.
* `RockusbInvariant` states what holds in every reachable state and proves it handler by handler.
* `RockusbTheorems` draws the conclusions for all runs: refinement of an uncached block store, CBW/CSW pairing, buffer
  ownership, the prefetch pipeline, and the residue a CSW states. `RockusbProgress` says exactly which commands come
  back with a CSW and which leave the engine stuck; `RockusbReads` and `RockusbWrites` say exactly when the data is
  right, each with concrete runs in which it is not. `RockusbWire` says it all again in the numbers of the wire: opcodes,
  byte offsets and block sizes.
* `RockusbEngine` is the engine in the source's own form, an object with four buffers that its methods update in
  place; each method is proved to compute the corresponding step, up to the endless loop.

The environment is that of section 3.4 of the USB Mass Storage Class Bulk-Only Transport, revision 1.0: the host sends
a CBW only after it has received the previous CSW. Completions come in any order the posted transfers allow, with any
length up to the request.

**Smaller parts with a theorem of their own:**

* `Netlink`, `NetlinkTheorems`, `NetlinkStreams`: the generic-netlink message builder and the nested message and
  attribute walk of `demo2_user.c`.
* `DnsQuery`, `DnsAnswer`, `HostPort`: the DNS name encoder, the answer walk, and the host:port printer and parser of
  `xconnect.c` (sections 3.1 and 4.1.2 to 4.1.4 of RFC 1035).
* `TxRing`: draining the UART's transmit ring into the chip's FIFO in `spi2uart.c`.
* `TaskSeq`: the resumable cursor over the circular task list in `seq_test2.c`.
* `I2s`: the masked 32-bit registers shared by two streams in `rk_i2s.c` (masks from `rk_i2s.h`).
* `Backlight`: duty cycle arithmetic and switching in `pwm_backlight.c`.

## Where the code and what it promises differ

The models follow the code. Each of these differences is a theorem, with its exact condition:

* `rk3399/debug/usb/README.md` says every CBW has its CSW. A command gets one unless its opcode is unknown, it is a read
  of no blocks, one of its transfers fails, or a write is left with fewer bytes to come than a block
  (`FinishesIff`, `StuckForever`). One good but short completion of a one-block write is enough (`OneShortPacket`).
  After an empty or failed completion in place of a CBW the engine takes no more commands (`AcceptsIff`,
  `EmptyPacket`).
* The last prefetch of a read over 128 blocks is a full window even if fewer blocks are left. When it passes the end
  of the medium the wanted blocks can be wrong under a CSW of success (`ReadExactIff`, `Read129`).
* A write that comes in pieces that are not whole blocks, but never leaves less than a block to come, ends with a CSW
  of success although the odd bytes are lost and later blocks move up (`RunWriteLandsIff`, `OddPieces`).
* The CSW of the last write chunk is queued before that chunk is stored; both happen in one poll (`CswBeforeFlush`).
* The CSW's residue field is the CBW's length field with its bytes reversed, and so hardly ever the residue
  (`ResidueIff`).
* genlmsg_dispatch takes the attributes of a message 16 bytes too long: a stream whose last message lacks the wanted
  attribute is walked past its end (`DispatchLostIff`), and the header behind any other such message can pass for the
  attribute (`PicksIff`, `StrayCuts`). nlattr's length has only 16 bits (`NetlinkTheorems.RoundTripIff`).
* An empty label inside a name cuts the DNS query short, and a label over 63 bytes is sent as if it were fine
  (`BuildQuery`). A response without an address record sends the walk past its bytes
  (`ResponseWalkIff`), and so can an address whose owner name is spelled out (`SpelledOwner`).
* wk2xxx_tx_chars writes one byte even into a full FIFO (`OverfillsIff`).
* set_fmt reports success for settings it does not know (`SetFmtReports`), and dividers over 255 are truncated, the
  upper bit clock divider getting bits of both (`DividerExactIff`).
* The duty cycle is not monotone once the product wraps (`MonotoneIff`).

## Model

| member | source | states |
|---|---|---|
| `RockusbTheorems.RunRefinesStore` | rk3399/debug/usb/cmd_rockusb.c:1213-1257 | Main theorem. For every run of polls and completions, with pieces of any size: if the finished writes lay on the medium, every finished read returned what a plain block store without buffers or cache holds at that point (every window that is on the medium, and the whole request if all its windows are), and between commands the medium is that store's medium. Of a write the store takes the whole blocks of each piece; erases and formats leave what the back end answers (which blocks of which space: `RockusbWire.RunReads`, `RockusbWire.RunWrites`) |
| `RockusbTheorems.RunEntriesCorrect` | rk3399/debug/usb/cmd_rockusb.c:797-1044 | In every run, with no side condition, each finished command is correct: a read of n blocks moved exactly n blocks' bytes, exact in each of its 0x80-block windows that is on the medium; a write that fits left exactly the whole blocks of each of its completions, back to back from its first block on, and nothing else changed; any other command sent exactly its reply and left the medium alone, erases and the two commands that enable a format (LOW_FORMAT, and TestUnitReady with 0xFD) aside; the CSW carries the CBW's tag and reports what the command did; the i-th finished command is the i-th one dispatched |
| `RockusbTheorems.RunPairsCsws` | rk3399/debug/usb/cmd_rockusb.c:776-795 | In every run the CSWs answer the CBWs in order with their tags, at most one behind, and none behind exactly in status IDLE |
| `RockusbTheorems.RunDispatchesOnce` | rk3399/debug/usb/cmd_rockusb.c:1219-1233 | In every run each CBW that arrives is dispatched exactly once and in order; the last may still be waiting |
| `RockusbTheorems.PollWaits` | rk3399/debug/usb/cmd_rockusb.c:1046-1073 | While a transfer is outstanding in either direction a poll changes nothing: no second transfer is posted and no buffer in use is written |
| `RockusbTheorems.RunFlight` | rk3399/debug/usb/cmd_rockusb.c:23-114 | From every reachable state with a bulk-in transfer outstanding: whatever else happens, the transfer and its bytes stay as posted until it completes or fails, so the host gets what was posted |
| `RockusbTheorems.RefillSparesFlight` | rk3399/debug/usb/cmd_rockusb.c:982-1001 | Inside a poll too: the prefetch that follows a posted chunk does not touch the buffer in flight |
| `RockusbTheorems.PostSparesFlush` | rk3399/debug/usb/cmd_rockusb.c:883-900 | The receive posted before a flush goes to the other buffer, and the bytes being flushed are still those received |
| `RockusbTheorems.RxDoneSpares` | rk3399/debug/usb/cmd_rockusb.c:91-103 | A completing receive changes only the buffer posted for it, and nothing of the other direction |
| `RockusbTheorems.RunWindowReady` | rk3399/debug/usb/cmd_rockusb.c:978-1001 | In every run, in the middle of a read: the prefetched window starts at the block to be sent next, is 0x80 blocks, is the current tx buffer, passes the send guard, reaches no further than block lba+n+126, and holds the medium's blocks if it is on the medium |
| `RockusbTheorems.ReadLoopStops` | rk3399/debug/usb/cmd_rockusb.c:963-1037 | The goto start loop ends, after at most two passes, if and only if the read asks for at least one block |
| `RockusbTheorems.WriteDropsOverlap` | rk3399/debug/usb/cmd_rockusb.c:622-629 | For a window and a request that do not wrap: the write commands keep the prefetched window exactly if the request ends before it or begins behind it by at least a block, and empty it otherwise, so one that survives shares no block with the request |
| `RockusbTheorems.ReadFitsIff` | rk3399/debug/usb/cmd_rockusb.c:972-1001 | The condition under which a read is exact says that every window the engine requests is on the medium; the last one reaches up to 127 blocks behind the request |
| `RockusbTheorems.ResidueIff` | rk3399/debug/usb/cmd_rockusb.c:784-786 | A finished command other than TestUnitReady states the residue section 5.2 of Bulk-Only Transport asks for if and only if the bytes it moves make up for the reversed length field; after moving exactly the stated length, just when that is 0; after moving nothing, just when the four length bytes read the same both ways |
| `RockusbReads.ReadExactIff` | rk3399/debug/usb/cmd_rockusb.c:955-1044 | For a waiting read of blocks that are on the medium: in every run, whatever the storage answers, the host gets exactly those blocks if it gets a CSW -- if and only if every window, the over-long last one included, is on the medium |
| `RockusbReads.Read129` | rk3399/debug/usb/cmd_rockusb.c:990-1033 | 129 blocks read from a medium of 129 blocks: a run from the configured engine that ends with a CSW of success and wrong data |
| `RockusbReads.ReadTakesCalls` | rk3399/debug/usb/cmd_rockusb.c:955-1044 | In every run a read of n blocks has taken exactly ceil(n/128) calls of rkusb_handle_datatx when its CSW is due; before, every call still due is counted |
| `RockusbWrites.RunWriteLandsIff` | rk3399/debug/usb/cmd_rockusb.c:858-953 | In every run, whatever the pieces: a finished write of an unlocked loader that fits has stored exactly the whole blocks of each completion, back to back; so all its data is in place if and only if the part that is missing at the end equals what the medium held there |
| `RockusbWrites.OddPieces` | rk3399/debug/usb/cmd_rockusb.c:858-953 | For every medium, address on it, data and unlocked configured engine: a run in which a write of two blocks comes in pieces of 100, 412 and 512 bytes and ends with a CSW of success. Only the third piece has been stored, and that in the first block; the data is in place if and only if its halves are the same and the second block held them before |
| `RockusbWrites.CswBeforeFlush` | rk3399/debug/usb/cmd_rockusb.c:901-952 | The CSW of the last chunk is in flight before that chunk is stored; both happen in one poll |
| `RockusbWrites.OneShortPacket` | rk3399/debug/usb/cmd_rockusb.c:884-900 | A write of one block whose only completion is good but short: in every continuation the engine stays in status RXDATA and queues no CSW |
| `RockusbWrites.EmptyPacket` | rk3399/debug/usb/cmd_rockusb.c:1228-1232 | An empty good completion in place of a CBW: the engine never changes again |
| `RockusbWire.RunReads` | rk3399/debug/usb/cmd_rockusb.c:955-1044 | In every run, in numbers alone: with o in bytes 17 to 20 and n in bytes 22 and 23 of the CBW, both big-endian, a finished command 0x04 has sent 528 * n bytes, namely pages o..o+n-1 if the pages fetched (n, or over 128 the next multiple of 128) are on the medium; 0x14 the same with 512-byte logical blocks; the medium is as before |
| `RockusbWire.RunWrites` | rk3399/debug/usb/cmd_rockusb.c:858-953 | In every run, in numbers alone: a finished 0x05 on the medium of an unlocked engine has put its pieces, each cut to a multiple of 528 bytes, from byte 528 * o of the pages on, a 0x15 the same with 512 and the logical blocks, and nothing else has changed; if every piece is whole blocks that is all n blocks sent |
| `RockusbWire.RunPieces` | rk3399/debug/usb/cmd_rockusb.c:858-874 | In every run what an entry records as from the host is the good completions that came while its command was in status RXDATA, in order, and the kept part their whole blocks |
| `RockusbWire.RunReplies` | rk3399/debug/usb/cmd_rockusb.c:797-856 | In every run every finished opcode is one of fifteen numbers; the short replies are the five, 64 (all zero), 11 and 16 bytes they should be, other commands send nothing; erases of an unlocked engine and formats leave the medium the back end answers, and besides writes no command changes it |
| `RockusbWire.RunCsws` | rk3399/debug/usb/cmd_rockusb.c:776-795 | In every run the 13 bytes of every finished command's CSW: 55 53 42 53, bytes 4 to 7 of the CBW, its length field reversed, and status 0, or 1 for an erase that failed on an unlocked engine; TestUnitReady states what the back end answers |
| `RockusbWire.KnownFinishes` | rk3399/debug/usb/cmd_rockusb.c:797-856 | From every reachable state a dispatched command can get its CSW to the host if and only if its opcode is one of the fifteen numbers and it is not 0x04 or 0x14 with a block count of 0 |
| `RockusbWire.RunAsks` | rk3399/debug/usb/cmd_rockusb.c:884-896 | In every run a posted receive asks for 31 bytes in status IDLE, and in status RXDATA for the whole blocks still missing, at most 128, of 528 (0x05) or 512 (0x15) bytes |
| `RockusbWire.CallsInNumbers` | rk3399/debug/usb/cmd_rockusb.c:955-1044 | A read of n blocks takes (n + 127) / 128 calls of rkusb_handle_datatx |
| `RockusbProgress.FinishesIff` | rk3399/debug/usb/cmd_rockusb.c:1213-1257 | From every reachable state with a command under way, some continuation brings its CSW to the host if and only if no transfer of it has failed, its opcode is known, it is not a read of no blocks, and a write misses nothing or at least one block |
| `RockusbProgress.StuckForever` | rk3399/debug/usb/cmd_rockusb.c:1213-1257 | Otherwise every continuation leaves it in its status, with no CSW, no data and no further CBW |
| `RockusbProgress.StuckHalts` | rk3399/debug/usb/cmd_rockusb.c:1213-1257 | With nothing outstanding a stuck command has halted the engine for good, but for a write that misses less than a block, which asks for zero bytes again and again |
| `RockusbProgress.HaltedForever` | rk3399/debug/usb/cmd_rockusb.c:1213-1257 | A halted engine (unknown opcode, empty read, failed bulk-in transfer in a read or before a CSW, failed bulk-out transfer in a write, no receive posted in IDLE) is left unchanged by every continuation |
| `RockusbProgress.AcceptsIff` | rk3399/debug/usb/cmd_rockusb.c:1228-1232 | Between commands the engine takes another CBW in some continuation if and only if one waits or a receive for it is posted; otherwise nothing ever changes |
| `RockusbProgress.DispatchGoesOnIff` | rk3399/debug/usb/cmd_rockusb.c:797-856 | A command that is dispatched can be finished if and only if its opcode is known and it is not a read of no blocks |
| `RockusbProgress.ChunkExactIff` | rk3399/debug/usb/cmd_rockusb.c:884-900 | A good completion of a write, of any non-empty length, leaves the command able to finish if and only if it leaves nothing or at least one block to come |
| `RockusbProgress.RoundMoves` | rk3399/debug/usb/cmd_rockusb.c:1213-1246 | A completion followed by a poll ends a live command or lowers its rank (bytes left, then stage, then transfer in flight), for chunks of any size that leave nothing or at least a block |
| `RockusbProgress.ReturnsToIdle` | rk3399/debug/usb/cmd_rockusb.c:1213-1246 | Progress: with such chunks a live command is back in status IDLE within as many rounds as its rank |
| `RockusbInvariant.RunInv` | rk3399/debug/usb/cmd_rockusb.c:1213-1257 | Every state of every run satisfies the invariant: transfer bookkeeping, the phase of the current command, the prefetch window, and the command history |
| `RockusbInvariant.StepInv` | rk3399/debug/usb/cmd_rockusb.c:1213-1257 | Each poll and each completion, good or failed, keeps the invariant |
| `RockusbInvariant.PollInv` | rk3399/debug/usb/cmd_rockusb.c:1219-1246 | One round of the polling loop keeps it |
| `RockusbInvariant.DispatchInv` | rk3399/debug/usb/cmd_rockusb.c:797-856 | Dispatching any CBW keeps it |
| `RockusbInvariant.ReadCall` | rk3399/debug/usb/cmd_rockusb.c:955-1044 | One call on a read with blocks left sends exactly the next chunk and ends in status CSW or with a valid window |
| `RockusbInvariant.FinishInv` | rk3399/debug/usb/cmd_rockusb.c:901-953 | rkusb_handle_datarx with all data received keeps it: the CSW is queued first, then the last chunk is flushed |
| `RockusbInvariant.DataRxLands` | rk3399/debug/usb/cmd_rockusb.c:876-953 | After a call of rkusb_handle_datarx exactly the whole blocks of all completions so far are on the medium, back to back, and nothing else has changed |
| `RockusbInvariant.SendCswInv` | rk3399/debug/usb/cmd_rockusb.c:776-795 | rkusb_send_csw keeps the invariant, whether or not the bulk-in endpoint is free |
| `RockusbEngine.UsbCmd.constructor` | rk3399/debug/usb/cmd_rockusb.c:49-57 | After the configured event: one CBW receive posted into buffer 0, nothing prefetched |
| `RockusbEngine.UsbCmd.TransmitCsw` | rk3399/debug/usb/cmd_rockusb.c:776-795 | In place, exactly the CSW step: refused while the last bulk-in transfer has not finished well, else packet, both endpoint requests, IDLE |
| `RockusbEngine.UsbCmd.ServeRead` | rk3399/debug/usb/cmd_rockusb.c:955-1044 | rkusb_handle_datatx with its loop, in place: two passes at the start of a read, one afterwards, and the machine's step as result |
| `RockusbEngine.UsbCmd.ServeWrite` | rk3399/debug/usb/cmd_rockusb.c:858-953 | rkusb_handle_datarx in the source's order: count, post or finish, then store out of the buffer the completion named |
| `RockusbEngine.UsbCmd.DoRockusbCmd` | rk3399/debug/usb/cmd_rockusb.c:797-856 | The switch over all opcodes computes the machine's dispatch step; an unknown opcode leaves status CMD |
| `RockusbEngine.UsbCmd.HandleResponse` | rk3399/debug/usb/cmd_rockusb.c:1046-1073 | The four states that have work to do, and no change in any other |
| `RockusbEngine.UsbCmd.PollOnce` | rk3399/debug/usb/cmd_rockusb.c:1219-1246 | One round of the loop computes exactly the machine's poll step, for all four buffers and every field |
| `RockusbEngine.UsbCmd.TxHandler` | rk3399/debug/usb/cmd_rockusb.c:105-114 | A bulk-in completion, good or failed |
| `RockusbEngine.UsbCmd.RxHandler` | rk3399/debug/usb/cmd_rockusb.c:91-103 | A good bulk-out completion: data in the posted buffer, completion record, nothing else |
| `RockusbEngine.UsbCmd.RxFailure` | rk3399/debug/usb/cmd_rockusb.c:93-96 | A failed bulk-out completion |
| `RockusbEngine.UsbCmd.DoRockusb` | rk3399/debug/usb/cmd_rockusb.c:1213-1257 | The endless loop against any script of polls and completions is the machine's run and keeps the invariant; it stops early only where the source never returns from rkusb_handle_datatx |
| `Netlink.Build` | rk3288/debug/netlink/demo2_user.c:93-176 | The buffer holds exactly the encoded message, padding zeroed; null exactly for type 0 or an empty payload |
| `NetlinkTheorems.BuiltBytes` | rk3288/debug/netlink/demo2_user.c:155-176 | The encoded message byte by byte: little-endian length, type, flags 1, sequence number 0, pid; command at 16, version at 17; attribute length and type at 20 and 22; payload from 24 on, and zeros up to the next word |
| `Netlink.Send` | rk3288/debug/netlink/demo2_user.c:181-207 | The send loop: whatever the socket takes at a time, the bytes sent are a prefix of the buffer, all of it when the loop ends well, and -1 only after a failure other than EAGAIN |
| `Netlink.DispatchInPlace` | rk3288/debug/netlink/demo2_user.c:247-304 | The walk with its moving pointers: return value, output buffer and *len are those of the specification, on any bytes at all; ok is false where the source reads or copies past the bytes given |
| `NetlinkTheorems.StreamWalk` | rk3288/debug/netlink/demo2_user.c:247-304 | On any concatenation of messages whose first attribute is the wanted one the walk lands on each boundary, ends with no byte left and returns 0 |
| `NetlinkTheorems.WrittenIs` | rk3288/debug/netlink/demo2_user.c:294-297 | What is then in the buffer: the last message's payload up to the new *len; nothing beyond the capacity changed |
| `NetlinkTheorems.ShortestIs` | rk3288/debug/netlink/demo2_user.c:295 | *len ends as the least of the capacity and all payload lengths |
| `NetlinkTheorems.StreamDispatch` | rk3288/debug/netlink/demo2_user.c:247-304 | The stream walk as one call of genlmsg_dispatch |
| `NetlinkTheorems.BuiltInside` | rk3288/debug/netlink/demo2_user.c:93-128 | The allocation is 4-aligned, holds headers and payload, and wastes less than 4 bytes |
| `NetlinkTheorems.RoundTripIff` | rk3288/debug/netlink/demo2_user.c:136-304 | Round trip: dispatching a built message copies exactly the first min(capacity, length) payload bytes and returns 0 if and only if the payload has at most 65531 bytes or the capacity is within the truncated attribute length |
| `NetlinkStreams.DispatchLostIff` | rk3288/debug/netlink/demo2_user.c:247-304 | On every stream of messages with arbitrary attribute lists, below 2^31 bytes: genlmsg_dispatch runs past its bytes if and only if the last message lacks the wanted attribute; otherwise it returns 0 and has copied, in order, one pick for each message: its wanted payload, or what passes for the attribute in the 16 bytes of the header behind it |
| `NetlinkStreams.StreamWalks` | rk3288/debug/netlink/demo2_user.c:266-301 | The same for the outer loop from any message boundary on |
| `NetlinkStreams.EndedWalks` | rk3288/debug/netlink/demo2_user.c:266-301 | Any stream that ends in a message of type 3 (DONE) or 2 (ERROR), whatever follows it, or in what is not a whole message: the picks of the messages before are copied, and the result is 0, -1, or 0 exactly if anything has been copied |
| `NetlinkStreams.DispatchEnds` | rk3288/debug/netlink/demo2_user.c:269-282 | genlmsg_dispatch on messages that carry the wanted attribute, followed by a message of type 3 or 2 and any bytes: exactly their payloads are copied, and it returns 0 or -1 |
| `NetlinkStreams.OtherType` | rk3288/debug/netlink/demo2_user.c:262-264 | A first message of another type than the non-zero one asked for: -1, and nothing is changed |
| `NetlinkStreams.PicksIff` | rk3288/debug/netlink/demo2_user.c:286 | Exactly the wanted payloads are copied if and only if no header behind a message without the attribute passes for it |
| `NetlinkStreams.StrayLength` | rk3288/debug/netlink/demo2_user.c:286-293 | A header passes for an attribute only if its message's length is 4, 8, 12 or 16 modulo 2^16; with shorter messages than 64 KiB none does |
| `NetlinkStreams.StrayHeader` | rk3288/debug/netlink/demo2_user.c:286-293 | With such a length it does pass, for the attribute that the upper half of the length names, with the bytes behind the length as payload |
| `NetlinkStreams.StrayCuts` | rk3288/debug/netlink/demo2_user.c:247-304 | A concrete stream: behind a message without attributes, one of 65544 bytes with a payload of 65520. Four header bytes are copied as payload, and the real payload is cut to four bytes |
| `NetlinkStreams.CopyAllIs` | rk3288/debug/netlink/demo2_user.c:294-297 | What the copies of such a stream leave: the last payload up to *len, which is the least of the capacity and all copied payloads; nothing beyond the capacity |
| `DnsQuery.JoinSplit` | rk3399/xconnect.c:143-155 | Splitting a name at its dots loses nothing and gives dot-free labels |
| `DnsQuery.SplitJoin` | rk3399/xconnect.c:143-155 | Joining labels and splitting again gives them back |
| `DnsQuery.Fillip` | rk3399/xconnect.c:143-155 | The single pass with back-patched lengths leaves exactly the length-prefixed labels of section 3.1 of RFC 1035 in the zeroed buffer, and zeros behind them |
| `DnsQuery.RoundTripIff` | rk3399/xconnect.c:143-155 | Decoding gives back the labels if and only if each has 1 to 63 bytes |
| `DnsQuery.FilledStrlen` | rk3399/xconnect.c:124-126 | strlen of a zero-padded name is its encoded length if and only if no label is empty, and never more |
| `DnsQuery.BuildQuery` | rk3399/xconnect.c:117-127 | For every name of up to 254 bytes: the bytes sent are the complete query of section 4.1.2 if and only if no label is empty (a dot at the end being the root), and the name in them decodes to the labels asked for if and only if each has 1 to 63 bytes; they begin with the twelve bytes of the header (id 0x4419, recursion desired, one question) and end with a zero and 0 1 0 1 |
| `DnsAnswer.AnswerWalk` | rk3399/xconnect.c:130-138 | The loop over index finds exactly what the walk specification says, on any buffer |
| `DnsAnswer.RecordsWalk` | rk3399/xconnect.c:130-138 | From any boundary of records with compressed (two-byte) owner names the walk stays on record boundaries up to the first type-A record; without one it passes the end |
| `DnsAnswer.ResponseWalkIff` | rk3399/xconnect.c:130-140 | On every response whose answers have compressed owner names (two bytes, section 4.1.4), as the source assumes, and whose question is well-formed: the walk gives the address of the first type-A record if and only if there is one |
| `DnsAnswer.SpelledOwner` | rk3399/xconnect.c:130-138 | An address record whose owner name is spelled out as one label of one byte is read one byte too early: with a time to live whose low byte is 0 the walk runs off the end although there is an address |
| `HostPort.ParseInPlace` | rk3399/xconnect.c:315-365 | str2sockaddr's parsing with its moving host, cp and port, on every text, error cases included, is the specification that the rows below pin down for every shape of text |
| `HostPort.BracketedIff` | rk3399/xconnect.c:329-364 | [host]:port parses to host and port if and only if the host has no ']' |
| `HostPort.PlainIff` | rk3399/xconnect.c:341-364 | host:port parses to host and port if and only if the host has no ':', does not open with '[', and is not the word local where that announces a socket path |
| `HostPort.RoundTripIff` | rk3399/xconnect.c:592-602 | Parsing the text sockaddr2str prints gives back exactly that host and port if and only if the host is readable in this sense, for every port up to 65535 |
| `HostPort.BareLiteral` | rk3399/xconnect.c:341-346 | A bare text with two or more ':' is a host as it stands, with the default port |
| `HostPort.BareHost` | rk3399/xconnect.c:340-347 | A text without ':' that does not open with '[' is a host with the default port |
| `HostPort.OneColon` | rk3399/xconnect.c:341-364 | A text with one ':' that neither opens with '[' nor, with the feature on, with local: is split there: host and port if a decimal numeral up to 65535 follows, else a bad port |
| `HostPort.InBrackets` | rk3399/xconnect.c:329-364 | A text that opens with '[': a bad address without a ']'; else the host is what stands before the first ']', with the default port if nothing follows, the port if ':' and a numeral up to 65535 follow, a bad port after any other ':', and a bad address otherwise |
| `HostPort.LocalPath` | rk3399/xconnect.c:315-325 | With the feature on, local: announces a socket path |
| `HostPort.NumberIs` | rk3399/xconnect.c:357-358 | A port number is read from exactly the non-empty strings of digits, with the value of the numeral |
| `TxRing.MaskIsModulo` | rk3288/debug/spi/spi2uart.c:329 | Masking with a power of two less one is the remainder |
| `TxRing.Port.CharsPending` | rk3288/debug/spi/spi2uart.c:347 | The masked difference of head and tail is the number of pending bytes |
| `TxRing.Port.Collect` | rk3288/debug/spi/spi2uart.c:319-334 | The do-while loop moves exactly k = min(pending, max(1, room)) bytes in order, never beyond txbuf[254] |
| `TxRing.Port.TxChars` | rk3288/debug/spi/spi2uart.c:267-352 | One call, in numbers: without x_char and not stopped it writes the first min(pending, 255 - tfcnt) pending bytes, or min(pending, 1) if tfcnt is 255 or is 0 with the full flag, and leaves the others in the ring; with x_char exactly that; wakeup below 256 pending bytes and stop on an empty ring, both only if the transmitter is idle |
| `TxRing.RunConserves` | rk3288/debug/spi/spi2uart.c:267-352 | Over every sequence of queued bytes and drains of a ring of any size, the bytes written followed by those pending are the bytes the ring had room for, in order, and the ring never overflows |
| `TxRing.DrainsEmpty` | rk3288/debug/spi/spi2uart.c:321-334 | As many drains as there are pending bytes empty the ring, whatever the chip reports |
| `TxRing.OverfillsIff` | rk3288/debug/spi/spi2uart.c:298-334 | With a FIFO of 255 places holding tfcnt bytes (255 if the counter reads 0 with the full flag): what it holds after a call exceeds 255 if and only if it was full and a byte was pending, and then by one |
| `TxRing.DrainsInNumbers` | rk3288/debug/spi/spi2uart.c:298-334 | The step the run theorems take for a drain, in the same numbers |
| `TaskSeq.SeqFile.Start` | rk3399/debug/platform_driver_test/seq_test2.c:24-66 | From any position: the task that many links on, or null exactly at a positive multiple of the ring's length; the counter BUG_ON checks equals the position |
| `TaskSeq.SeqFile.Next` | rk3399/debug/platform_driver_test/seq_test2.c:73-89 | The next task and the advanced position, null at the end of the ring |
| `TaskSeq.SeqFile.Session` | rk3399/debug/platform_driver_test/seq_test2.c:24-110 | A session from any reached position shows the next tasks in order until its room or the ring ends |
| `TaskSeq.SeqFile.ReadAll` | rk3399/debug/platform_driver_test/seq_test2.c:24-110 | However the walk is split into sessions, every task is shown exactly once and in order, and then start reports the end |
| `I2s.StepRefines` | rk3288/debug/codec/rk_i2s.c:296-507 | Each operation on the 32-bit registers changes exactly the fields it is named for, and keeps the sharing invariant |
| `I2s.RunRefines` | rk3288/debug/codec/rk_i2s.c:296-507 | Over every sequence of operations the registers behave as eleven independent fields and the sharing invariant holds |
| `I2s.StreamsFollowTriggers` | rk3288/debug/codec/rk_i2s.c:184-325 | After every sequence of operations each DMA enable bit and flag is on exactly if its stream's last trigger was a start, and both start bits are on together exactly if either stream is on |
| `I2s.DividerExactIff` | rk3288/debug/codec/rk_i2s.c:485-497 | The divider fields hold the requested value if and only if it is at most 255 |
| `I2s.ProbeShares` | rk3288/debug/codec/rk_i2s.c:689-691 | The end of probe establishes the sharing invariant whatever the registers held |
| `I2s.ClearsIff` | rk3288/debug/codec/rk_i2s.c:210-219 | The clear is issued by exactly those stops after which neither stream is running |
| `I2s.SetFmtReports` | rk3288/debug/codec/rk_i2s.c:402-471 | set_fmt always returns 0, but does what it was asked for if and only if it knows both settings; an unknown master changes nothing, an unknown format only the master bit |
| `I2s.TriggerCodes` | rk3288/debug/codec/rk_i2s.c:296-325 | Which triggers start, stop or are refused, and their effect in numbers: DMACR bit 8 for playback or 24 for capture, and the low two bits of XFER |
| `I2s.ParamsCodes` | rk3288/debug/codec/rk_i2s.c:327-399 | hw_params in numbers: width less one in the low five bits of TXCR or RXCR, channel pairs less one from bit 15 of TXCR on, the two DMA levels, and no other bit |
| `I2s.FmtCodes` | rk3288/debug/codec/rk_i2s.c:402-471 | set_fmt in numbers: CKR bit 27, and formats 0, 1, 2 at bit 9 of TXCR and RXCR |
| `I2s.ClkdivCodes` | rk3288/debug/codec/rk_i2s.c:474-507 | set_clkdiv in numbers, for dividers of eight bits: the low two bytes of CKR, or the third |
| `I2s.I2sDev.WaitClear` | rk3288/debug/codec/rk_i2s.c:221-231 | At most eleven reads; the driver complains if and only if the first ten are all non-zero, even if the eleventh is zero |
| `I2s.I2sDev.OnTrigger` | rk3288/debug/codec/rk_i2s.c:296-325 | The trigger callback's effect and return code |
| `I2s.I2sDev.OnHwParams` | rk3288/debug/codec/rk_i2s.c:327-399 | The hw_params callback's effect and return code; nothing is written on an error |
| `I2s.I2sDev.OnSetFmt` | rk3288/debug/codec/rk_i2s.c:402-471 | The set_fmt callback's effect; it returns 0 even for an unknown master or format |
| `I2s.I2sDev.OnSetClkdiv` | rk3288/debug/codec/rk_i2s.c:474-507 | The set_clkdiv callback's effect and return code |
| `Backlight.IdealShape` | rk3288/debug/pwm/pwm_backlight.c:75-86 | The intended duty rises with the level from the threshold at level 0 to the period at the top level |
| `Backlight.DutyBounded` | rk3288/debug/pwm/pwm_backlight.c:85 | The 32-bit computation gives a duty between threshold and period for every legal level, even when the product wraps |
| `Backlight.DutyExactIff` | rk3288/debug/pwm/pwm_backlight.c:85 | It gives the intended duty if and only if the product fits 32 bits |
| `Backlight.ReturnExactIff` | rk3288/debug/pwm/pwm_backlight.c:75-86 | The returned int is the intended duty if and only if, besides, that duty fits an int |
| `Backlight.MonotoneIff` | rk3288/debug/pwm/pwm_backlight.c:75-86 | A brighter level never gives a smaller duty if and only if scale * (period - threshold) fits 32 bits, for every span and scale that together are at most 2^32, which all that fit an int are |
| `Backlight.WrapUnnoticed` | rk3288/debug/pwm/pwm_backlight.c:75-86 | With one more than that bound a wrap can leave the duty monotone |
| `Backlight.LthFits` | rk3288/debug/pwm/pwm_backlight.c:250-251 | A lowest brightness within the scale gives a threshold inside the period, without wrapping |
| `Backlight.FindScale` | rk3288/debug/pwm/pwm_backlight.c:198-203 | The probe loop makes scale the largest level, positive exactly if some level is |
| `Backlight.DutyInRange` | rk3288/debug/pwm/pwm_backlight.c:75-86 | For every period an int can hold, what pwm_config is given lies between threshold and period (its value: `Backlight.DutyIdealIff`) |
| `Backlight.DutyIdealIff` | rk3288/debug/pwm/pwm_backlight.c:75-86 | The duty is the intended one of the table's entry for this brightness (of the brightness itself without a table) if and only if the product fits 32 bits and the duty an int |
| `Backlight.RunShows` | rk3288/debug/pwm/pwm_backlight.c:88-105 | After every sequence of requests duty, enable state and pin are as the last request wants, and enable and disable calls strictly alternate (the duty itself: `Backlight.RunIdeal`) |
| `Backlight.RunIdeal` | rk3288/debug/pwm/pwm_backlight.c:88-105 | After every sequence of requests, in terms of the configuration alone: on exactly if the last is positive, with the intended duty of levels[brightness] if product and duty fit; with duty 0 if the last is 0 and an earlier one was not; the pin active exactly while on |
| `Backlight.RunMonotone` | rk3288/debug/pwm/pwm_backlight.c:75-105 | With ascending levels whose largest product fits, a brighter request never ends with a smaller duty, whatever was requested before |
| `Backlight.PwmBacklight.UpdateStatus` | rk3288/debug/pwm/pwm_backlight.c:33-105 | The exact calls of one update, in order, and that the driver's flag and calls stay those of the requests served so far |

## Left out

- RockUSB bus events in the middle of a command (reset, address, clear-feature): they return to IDLE without emptying
  the prefetch window, so the run theorems cover runs from the configured event on without them.
- RockUSB special block ranges from 0xFFF00000 up (vendor data, loader unlock) and addresses that wrap: the medium ends
  below them.
- The RockUSB storage back end: a request on the medium succeeds; what a refused request leaves behind, the outcome of
  an erase or a format, identification data and the four-way answer of TestUnitReady are arguments of each poll.
- Logical blocks and flash pages are two separate spaces; how the FTL maps one to the other is not part of this model.
- A low-level format is taken to be done in the poll that enables it; one that goes on over later polls is not modelled.
- The loader lock does not change during a run; reset and timeout checks, imgwr_mode, debug output and the
  non-DWC3 branches are left out. The engine does not check a CBW's signature or length, and neither does the model.
- RockUSB buffers hold at least 0x80 pages of 528 bytes, as the source's allocation does; cmd_rockusb.h's controller
  structures and the controller driver are not part of this model.
- Netlink sockets and receiving, null pointers and failed allocation, big-endian machines, and demo3_user.c, which
  repeats demo2_user.c. Where the walk would read past its bytes the model stops and says so.
- DNS sockets and reading the resolver's address; the query buffer must hold the name, which the source does not check
  (names from 251 bytes on can make the memcpy of the query field overlap its source, and it is taken to read all four
  bytes first; names from 255 on can make it leave the struct), and the answer buffer must hold a zero byte; name compression in the question.
- DnsAnswer.ResponseWalkIff: says nothing of answers with spelled-out owner names, which section 4.1.4 of RFC 1035 also
  allows, because the source takes every owner name to be two bytes (`SpelledOwner`).
- HostPort takes bb_strtou as decimal digits only and models neither name lookup nor the printing of socket paths, nor
  that a socket path is cut to the size of sun_path.
- The serial core that fills the ring is not part of this repository; `Port.Enqueue` does what its macros do.
- wk2xxx register addresses and masks (their header is not part of this model): register reads are arguments.
- TaskSeq.SeqFile.Start: does not model the overflow of the source's int counter at positions from 2^31 on, because a
  task list is never that long.
- The task list does not change during the traversal; seq_file's own buffer and the printed header line are left out.
- I2S clocks, DAI registration, DMA set-up and locking (each operation is taken as atomic).
- Backlight.MonotoneIff: says nothing of spans and scales that together exceed 2^32, where a wrap can go unnoticed
  (`WrapUnnoticed`) or not, because no period and scale that fit an int do.
- Backlight: GPIO and PWM requests in probe; a scale of zero, which probe divides by; the class driver's own checks
  enter as the range of legal brightness values.
- rk818.c, act8846.c, es8316.c, es8323.c, trace_helpers.c, the kernel-side demos, timers, LEDs, buttons and LCD code:
  tables, fixed register scripts and plumbing that would add only easy members.
