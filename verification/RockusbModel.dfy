/** The RockUSB command engine (DWC3 configuration) as a step function on values: every handler of
    the polling loop, the controller's completions, and a trace of what crossed the wire. */
module RockusbModel {
  import opened Bytes
  import opened BlockStore

  const BUFFER_BLOCK_MAX := 0x80
  const CBW_LEN := 31
  const CSW_LEN := 13
  const CSW_GOOD: byte := 0
  const CSW_FAIL: byte := 1
  const CSW_SIGNATURE: seq<byte> := [0x55, 0x53, 0x42, 0x53]

  const READ_FLASH_ID: byte := 0x01
  const TEST_UNIT_READY: byte := 0x00
  const TEST_BAD_BLOCK: byte := 0x03
  const READ_10: byte := 0x04
  const WRITE_10: byte := 0x05
  const ERASE_10: byte := 0x06
  const ERASE_10_FORCE: byte := 0x0b
  const LBA_READ_10: byte := 0x14
  const LBA_WRITE_10: byte := 0x15
  const ERASE_SYS_DISK: byte := 0x16
  const READ_FLASH_INFO: byte := 0x1A
  const GET_CHIP_VER: byte := 0x1B
  const LOW_FORMAT: byte := 0x1C
  const SET_RESET_FLAG: byte := 0x1E
  const RESET: byte := 0xff

  datatype Status = Idle | Cmd | RxData | TxData | Csw | RxDataPrepare | TxDataPrepare
  datatype RecvStatus = RecvReady | RecvOk | RecvError
  datatype SendStatus = SendInProgress | SendFinishedOk | SendFinishedError

  /** The 31 bytes of a command block wrapper. */
  type Cbw = s: seq<byte> | |s| == CBW_LEN witness Zeros(CBW_LEN)

  /** Index of one of a direction's two ping-pong buffers. */
  type Slot = x: int | 0 <= x < 2

  function Other(s: Slot): Slot {
    1 - s
  }

  /** What the controller holds after an endpoint request: a buffer and a byte count. */
  datatype Transfer = Transfer(buf: Slot, len: nat)

  datatype RxGiveback = RxGiveback(status: RecvStatus, actual: nat, buf: Option<Slot>)
  datatype TxGiveback = TxGiveback(status: SendStatus, actual: nat, buf: Option<Slot>)

  /** One direction: its buffers, the next buffer to use, the completion record, the outstanding transfer. */
  datatype Rx = Rx(bufs: seq<seq<byte>>, num: Slot, give: RxGiveback, xfer: Option<Transfer>)
  datatype Tx = Tx(bufs: seq<seq<byte>>, num: Slot, give: TxGiveback, xfer: Option<Transfer>)

  datatype PreRead = PreRead(buf: Option<Slot>, lba: u32, blocks: nat)
  datatype CswInfo = CswInfo(residue: seq<byte>, status: byte)

  /** A command the host has seen through to its CSW. */
  datatype Entry = Entry(cbw: Cbw, answer: Backend, before: Media, toHost: seq<byte>, fromHost: seq<byte>,
                         kept: seq<byte>, csw: seq<byte>, after: Media)

  /** History: CBWs dispatched and CSWs queued so far, finished commands, and the command under way (what the
      calls outside answered and the medium at its dispatch, what storage reads have put into the tx buffers, data
      completed in each direction, and of the data from the host the whole blocks at the start of each completion,
      back to back). */
  datatype Trace = Trace(cbws: seq<Cbw>, csws: seq<seq<byte>>, log: seq<Entry>, answer: Backend, start: Media,
                         fetched: seq<byte>, toHost: seq<byte>, fromHost: seq<byte>, kept: seq<byte>)

  datatype Dev = Dev(status: Status, cbw: Cbw, cmnd: byte, csw: CswInfo, transferSize: nat,
                     rx: Rx, tx: Tx, dSize: nat, dBytes: nat, uSize: nat, uBytes: nat, lba: u32,
                     pre: PreRead, locked: bool, media: Media, t: Trace)

  /** What calls outside the engine answer during one poll: the CSW of TestUnitReady, the outcome of an
      erase, the medium an erase, a format or a refused write leaves, identification data, and what a refused
      read leaves in its buffer. */
  datatype Backend = Backend(ready: CswInfo, eraseFailed: bool, media: Media,
                             id: seq<byte>, info: seq<byte>, chip: seq<byte>, junk: seq<byte>)

  // ----- fields of the command block wrapper -----

  function Tag(cbw: Cbw): seq<byte>
  {
    cbw[4..8]
  }

  function Sectors(cbw: Cbw): u16
  {
    Be16(cbw, 15 + 7)
  }

  function Offset(cbw: Cbw): u32
  {
    Be32(cbw, 15 + 2)
  }

  predicate IsRead(op: byte) {
    op == READ_10 || op == LBA_READ_10
  }

  predicate IsWrite(op: byte) {
    op == WRITE_10 || op == LBA_WRITE_10
  }

  function KindOf(op: byte): Kind {
    if op == READ_10 || op == WRITE_10 then Pba else Lba
  }

  /** Bytes of the one-shot replies; 0 for commands that send no reply. */
  function ReplySize(op: byte): nat {
    if op == READ_FLASH_ID then 5
    else if op == TEST_BAD_BLOCK then 64
    else if op == READ_FLASH_INFO then 11
    else if op == GET_CHIP_VER then 16
    else 0
  }

  /** Commands whose whole effect is their CSW. */
  predicate IsPlain(op: byte) {
    op == TEST_UNIT_READY || op == ERASE_10 || op == ERASE_10_FORCE || op == ERASE_SYS_DISK ||
    op == LOW_FORMAT || op == SET_RESET_FLAG || op == RESET
  }

  predicate IsErase(op: byte) {
    op == ERASE_10 || op == ERASE_10_FORCE
  }

  /** Commands that enable the low-level format of rkusb_lowformat_check. */
  predicate Formats(cbw: Cbw) {
    cbw[15] == LOW_FORMAT || (cbw[15] == TEST_UNIT_READY && cbw[16] == 0xFD)
  }

  /** The whole blocks at the start of `data`. */
  function WholeBlocks(k: Kind, data: seq<byte>): (r: seq<byte>)
    ensures r <= data && Aligned(k, |r|) && (r == data <==> Aligned(k, |data|))
  {
    data[..Size(k, Whole(k, |data|))]
  }

  /** csw.Residue = cpu_to_be32(cbw.DataTransferLength): the field's bytes reversed. */
  function Residue(cbw: Cbw): seq<byte>
  {
    [cbw[11], cbw[10], cbw[9], cbw[8]]
  }

  function Good(cbw: Cbw): CswInfo
  {
    CswInfo(Residue(cbw), CSW_GOOD)
  }

  function CswPacket(cbw: Cbw, info: CswInfo): seq<byte>
  {
    CSW_SIGNATURE + Tag(cbw) + Exactly(info.residue, 4) + [info.status]
  }

  // ----- storage back end -----

  /** Bytes a storage read of n blocks leaves at the start of its buffer: the medium's, or, when the
      request is not on the medium, whatever the back end made of the zeroed buffer. */
  function StorageRead(m: Media, k: Kind, first: nat, n: nat, junk: seq<byte>): (r: seq<byte>)
    ensures |r| == Size(k, n)
  {
    if InRange(m, k, first, n) then Blocks(m, k, first, n) else Exactly(junk, Size(k, n))
  }

  function StorageWrite(m: Media, k: Kind, first: nat, data: seq<byte>, left: Media): (r: Media)
    ensures SameSize(m, r)
  {
    if Size(k, first) + |data| <= |Space(m, k)| then Stored(m, k, first, data) else Left(m, left)
  }

  /** The medium keeps its size whatever the back end does to it. */
  function Left(m: Media, left: Media): (r: Media)
    ensures SameSize(m, r)
  {
    if SameSize(m, left) then left else m
  }

  // ----- representation -----

  predicate Buffers(bufs: seq<seq<byte>>) {
    |bufs| == 2 && forall i :: 0 <= i < 2 ==> |bufs[i]| >= 528 * BUFFER_BLOCK_MAX
  }

  predicate Wf(d: Dev) {
    && Buffers(d.rx.bufs)
    && Buffers(d.tx.bufs)
    && (d.rx.give.actual > 0 ==>
          d.rx.give.buf.Some? && d.rx.give.actual <= |d.rx.bufs[d.rx.give.buf.value]|)
    && (d.tx.xfer.Some? ==> d.tx.xfer.value.len <= |d.tx.bufs[d.tx.xfer.value.buf]|)
    && (d.rx.xfer.Some? ==> d.rx.xfer.value.len <= |d.rx.bufs[d.rx.xfer.value.buf]|)
    && d.transferSize <= 64
    && d.uBytes <= d.uSize
  }

  /** Bytes reported by the last bulk-out completion. */
  function Received(d: Dev): seq<byte>
    requires Wf(d)
  {
    if d.rx.give.actual > 0 then d.rx.bufs[d.rx.give.buf.value][..d.rx.give.actual] else []
  }

  /** Bytes of the outstanding bulk-in transfer, as its buffer holds them now. */
  function InFlight(d: Dev): seq<byte>
    requires Wf(d)
  {
    if d.tx.xfer.Some? then d.tx.bufs[d.tx.xfer.value.buf][..d.tx.xfer.value.len] else []
  }

  // ----- endpoint requests -----

  /** rkusb_write_bulk_ep on the current tx buffer, then the switch to the other one. */
  function PostIn(d: Dev, len: nat): (r: Dev)
    requires Wf(d) && len <= |d.tx.bufs[d.tx.num]|
    ensures Wf(r)
  {
    d.(tx := d.tx.(give := TxGiveback(SendInProgress, 0, None), xfer := Some(Transfer(d.tx.num, len)),
                   num := Other(d.tx.num)))
  }

  /** rkusb_read_bulk_ep on the current rx buffer, then the switch to the other one. */
  function PostOut(d: Dev, len: nat): (r: Dev)
    requires Wf(d) && len <= |d.rx.bufs[d.rx.num]|
    ensures Wf(r)
  {
    d.(rx := d.rx.(give := RxGiveback(RecvReady, 0, None), xfer := Some(Transfer(d.rx.num, len)),
                   num := Other(d.rx.num)))
  }

  /** Writes `data` at the start of the current tx buffer. */
  function FillTx(d: Dev, data: seq<byte>): (r: Dev)
    requires Wf(d) && |data| <= |d.tx.bufs[d.tx.num]|
    ensures Wf(r)
  {
    d.(tx := d.tx.(bufs := d.tx.bufs[d.tx.num := Overlay(d.tx.bufs[d.tx.num], 0, data)]))
  }

  // ----- handlers -----

  /** rkusb_send_csw: does nothing while the last bulk-in transfer has not finished well. */
  function SendCsw(d: Dev): (r: Dev)
    requires Wf(d)
    ensures Wf(r)
  {
    if d.tx.give.status != SendFinishedOk then d
    else
      var packet := CswPacket(d.cbw, d.csw);
      var queued := PostOut(PostIn(FillTx(d, packet), CSW_LEN), CBW_LEN);
      queued.(status := Idle, t := d.t.(csws := d.t.csws + [packet]))
  }

  /** A command that answers with a short reply prepared in the current tx buffer. */
  function Reply(d: Dev, data: seq<byte>, size: nat): (r: Dev)
    requires Wf(d) && size <= 64
    ensures Wf(r)
  {
    FillTx(d, Exactly(data, size)).(transferSize := size, csw := Good(d.cbw), status := TxData)
  }

  function StartRead(d: Dev): (r: Dev)
    requires Wf(d)
    ensures Wf(r)
  {
    d.(uSize := Size(KindOf(d.cmnd), Sectors(d.cbw)), uBytes := 0, lba := Offset(d.cbw), status := TxDataPrepare)
  }

  /** The write commands' test whether n blocks from `first` may overlap the prefetched window. */
  predicate MayOverlap(first: u32, n: nat, pre: PreRead) {
    !(U32(first + n) < pre.lba || first > U32(pre.lba + pre.blocks))
  }

  /** The write commands drop the prefetched window when it may overlap the blocks to be written. */
  function StartWrite(d: Dev): (r: Dev)
    requires Wf(d)
    ensures Wf(r)
  {
    var first := Offset(d.cbw);
    var n := Sectors(d.cbw);
    d.(dSize := Size(KindOf(d.cmnd), n), dBytes := 0, lba := first,
       pre := if MayOverlap(first, n, d.pre) then d.pre.(lba := 0, blocks := 0) else d.pre,
       rx := d.rx.(give := d.rx.give.(actual := 0)),
       status := RxDataPrepare)
  }

  function Erase(d: Dev, b: Backend): (r: Dev)
    requires Wf(d)
    ensures Wf(r)
  {
    d.(media := if d.locked then d.media else Left(d.media, b.media),
       csw := CswInfo(Residue(d.cbw), if !d.locked && b.eraseFailed then CSW_FAIL else CSW_GOOD),
       status := Csw)
  }

  /** A format that the command enables is done before the same round of the loop ends. */
  function Format(d: Dev, b: Backend): (r: Dev)
    requires Wf(d)
    ensures Wf(r)
  {
    if Formats(d.cbw) then d.(media := Left(d.media, b.media)) else d
  }

  /** The 31 bytes taken over as the command block wrapper, whatever length was reported. */
  function PendingCbw(d: Dev): Cbw
    requires Wf(d) && d.rx.give.actual > 0
  {
    d.rx.bufs[d.rx.give.buf.value][..CBW_LEN]
  }

  /** The received CBW as the current command: the state do_rockusb_cmd starts its switch in. */
  function Taken(d: Dev, b: Backend): (r: Dev)
    requires Wf(d) && d.rx.give.actual > 0
    ensures Wf(r)
  {
    var cbw := PendingCbw(d);
    d.(cbw := cbw, cmnd := cbw[15], status := Cmd,
       t := d.t.(cbws := d.t.cbws + [cbw], answer := b, start := d.media,
                    fetched := [], toHost := [], fromHost := [], kept := []))
  }

  /** do_rockusb_cmd. An unknown opcode leaves the engine in status Cmd. */
  function Dispatch(d: Dev, b: Backend): (r: Dev)
    requires Wf(d) && d.rx.give.actual > 0
    ensures Wf(r)
  {
    var e := Taken(d, b);
    if e.cmnd == TEST_UNIT_READY then Format(e, b).(csw := b.ready, status := Csw)
    else if e.cmnd == READ_FLASH_ID then Reply(e, b.id, 5)
    else if e.cmnd == TEST_BAD_BLOCK then Reply(e, Zeros(64), 64)
    else if e.cmnd == READ_FLASH_INFO then Reply(e, b.info, 11)
    else if e.cmnd == GET_CHIP_VER then Reply(e, b.chip, 16)
    else if IsRead(e.cmnd) then StartRead(e)
    else if IsWrite(e.cmnd) then StartWrite(e)
    else if IsErase(e.cmnd) then Erase(e, b)
    else if IsPlain(e.cmnd) then Format(e, b).(csw := Good(e.cbw), status := Csw)
    else e
  }

  /** Blocks and bytes of the next chunk a read sends. */
  function ChunkBlocks(d: Dev): nat
    requires Wf(d)
  {
    Min(Whole(KindOf(d.cmnd), d.uSize - d.uBytes), BUFFER_BLOCK_MAX)
  }

  function ChunkBytes(d: Dev): nat
    requires Wf(d)
  {
    if Whole(KindOf(d.cmnd), d.uSize - d.uBytes) >= BUFFER_BLOCK_MAX
    then Size(KindOf(d.cmnd), BUFFER_BLOCK_MAX) else d.uSize - d.uBytes
  }

  predicate Prefetched(d: Dev)
    requires Wf(d)
  {
    ChunkBlocks(d) > 0 && d.pre.blocks >= ChunkBlocks(d) && d.pre.lba == d.lba
  }

  /** One pass of rkusb_handle_datatx, first half: queue the chunk if the window holds it. */
  function SendChunk(d: Dev): (r: Dev)
    requires Wf(d)
    ensures Wf(r)
  {
    if !Prefetched(d) then d
    else
      var n := ChunkBlocks(d);
      var size := ChunkBytes(d);
      var posted := PostIn(d, size);
      posted.(uBytes := d.uBytes + size, lba := U32(d.lba + n), pre := d.pre.(blocks := d.pre.blocks - n))
  }

  /** One pass, second half: after the last chunk empty the window, else refill it with `n` blocks. */
  function Refill(d: Dev, n: nat, b: Backend): (r: Dev)
    requires Wf(d) && n <= BUFFER_BLOCK_MAX
    ensures Wf(r)
  {
    if d.uSize == d.uBytes then d.(pre := d.pre.(lba := 0, blocks := 0))
    else if d.uBytes == 0 || n == BUFFER_BLOCK_MAX then
      var data := StorageRead(d.media, KindOf(d.cmnd), d.lba, n, b.junk);
      FillTx(d, data).(pre := PreRead(Some(d.tx.num), d.lba, n), t := d.t.(fetched := d.t.fetched + data))
    else d
  }

  /** One pass of rkusb_handle_datatx, from its label `start` to the jump back. */
  function TxPass(d: Dev, b: Backend): (r: Dev)
    requires Wf(d)
    ensures Wf(r)
  {
    Refill(SendChunk(d), ChunkBlocks(d), b)
  }

  /** rkusb_handle_datatx: passes are repeated while nothing has been sent. Two are enough whenever there
      is a block to send (ReadLoopStops); with none the loop never ends (Spins), and
      the state returned here is the one it spins in. */
  function HandleDataTx(d: Dev, b: Backend): (r: Dev)
    requires Wf(d)
    ensures Wf(r)
  {
    var once := TxPass(d, b);
    var e := if once.uBytes == 0 then TxPass(once, b) else once;
    if e.uBytes != 0 && e.uSize == e.uBytes then e.(csw := Good(e.cbw), status := Csw) else e
  }

  /** Bytes requested from the host next: whole blocks, at most one buffer. */
  function WantBytes(k: Kind, left: nat): nat {
    Size(k, Min(Whole(k, left), BUFFER_BLOCK_MAX))
  }

  /** rkusb_handle_datarx, first half: request more data, or queue the CSW. */
  function AskOrFinish(d: Dev): (r: Dev)
    requires Wf(d)
    ensures Wf(r)
  {
    if d.dBytes < d.dSize
    then PostOut(d, WantBytes(KindOf(d.cmnd), d.dSize - d.dBytes)).(status := RxData)
    else SendCsw(d.(csw := Good(d.cbw)))
  }

  /** rkusb_handle_datarx, second half: store the whole blocks of `data`; a locked loader ignores them. */
  function Flush(d: Dev, data: seq<byte>, b: Backend): (r: Dev)
    requires Wf(d)
    ensures Wf(r)
  {
    var k := KindOf(d.cmnd);
    var n := Whole(k, |data|);
    if n == 0 || d.locked || !IsWrite(d.cmnd) then d
    else d.(media := StorageWrite(d.media, k, d.lba, WholeBlocks(k, data), b.media), lba := U32(d.lba + n))
  }

  function HandleDataRx(d: Dev, b: Backend): (r: Dev)
    requires Wf(d)
    ensures Wf(r)
  {
    var data := Received(d);
    Flush(AskOrFinish(d.(dBytes := d.dBytes + |data|)), data, b)
  }

  /** rkusb_handle_response */
  function Respond(d: Dev, b: Backend): (r: Dev)
    requires Wf(d)
    ensures Wf(r)
  {
    match d.status
    case TxData => PostIn(d, d.transferSize).(csw := Good(d.cbw), status := Csw)
    case RxData => if d.rx.give.status == RecvOk then HandleDataRx(d, b) else d
    case RxDataPrepare => HandleDataRx(d, b)
    case TxDataPrepare =>
      if d.uBytes == 0 || d.tx.give.status == SendFinishedOk then HandleDataTx(d, b) else d
    case _ => d
  }

  /** One round of the loop in do_rockusb. */
  function Poll(d: Dev, b: Backend): (r: Dev)
    requires Wf(d)
    ensures Wf(r)
  {
    var e := if d.status == Idle && d.rx.give.actual > 0 then Dispatch(d, b) else d;
    var f := Respond(e, b);
    if f.status == Csw then SendCsw(f) else f
  }

  // ----- the controller and the host -----

  datatype Event = Polled(b: Backend) | TxDone | TxFailed | RxDone(data: seq<byte>) | RxFailed

  /** The host sends a CBW only after it has received the previous CSW (USB Mass Storage Class
      Bulk-Only Transport, section 3.4), and a transfer never exceeds the request. */
  predicate Enabled(d: Dev, ev: Event) {
    match ev
    case Polled(_) => true
    case TxDone => d.tx.xfer.Some?
    case TxFailed => d.tx.xfer.Some?
    case RxFailed => d.rx.xfer.Some?
    case RxDone(data) =>
      && d.rx.xfer.Some?
      && |data| <= d.rx.xfer.value.len
      && (d.status == Idle ==> d.tx.give.status == SendFinishedOk)
  }

  /** dwc3_tx_handler with status 0. The host receives what the buffer holds at this moment; in status
      Idle that is the CSW, which closes the command. */
  function CompleteTx(d: Dev): (r: Dev)
    requires Wf(d) && d.tx.xfer.Some?
    ensures Wf(r)
  {
    var x := d.tx.xfer.value;
    var payload := InFlight(d);
    var t := d.t;
    d.(tx := d.tx.(give := TxGiveback(SendFinishedOk, x.len, Some(x.buf)), xfer := None),
       t := if d.status == Idle
            then t.(log := t.log + [Entry(d.cbw, t.answer, t.start, t.toHost, t.fromHost, t.kept, payload, d.media)])
            else t.(toHost := t.toHost + payload))
  }

  /** dwc3_rx_handler with status 0: the data lands in the buffer that was posted. */
  function CompleteRx(d: Dev, data: seq<byte>): (r: Dev)
    requires Wf(d) && d.rx.xfer.Some? && |data| <= d.rx.xfer.value.len
    ensures Wf(r)
  {
    var slot := d.rx.xfer.value.buf;
    d.(rx := d.rx.(bufs := d.rx.bufs[slot := Overlay(d.rx.bufs[slot], 0, data)],
                   give := RxGiveback(RecvOk, |data|, Some(slot)), xfer := None),
       t := if d.status == RxData
            then d.t.(fromHost := d.t.fromHost + data, kept := d.t.kept + WholeBlocks(KindOf(d.cmnd), data))
            else d.t)
  }

  function Step(d: Dev, ev: Event): (r: Dev)
    requires Wf(d)
    ensures Wf(r)
  {
    if !Enabled(d, ev) then d
    else
      match ev
      case Polled(b) => Poll(d, b)
      case TxDone => CompleteTx(d)
      case TxFailed => d.(tx := d.tx.(give := d.tx.give.(status := SendFinishedError), xfer := None))
      case RxDone(data) => CompleteRx(d, data)
      case RxFailed => d.(rx := d.rx.(give := d.rx.give.(status := RecvError), xfer := None))
  }

  function Run(d: Dev, evs: seq<Event>): (r: Dev)
    requires Wf(d)
    ensures Wf(r)
    decreases |evs|
  {
    if evs == [] then d else Step(Run(d, evs[..|evs| - 1]), evs[|evs| - 1])
  }

  /** The engine just configured (event 2): one CBW receive posted, nothing prefetched, nothing seen. */
  predicate Configured(d: Dev, m: Media) {
    && Wf(d)
    && d.status == Idle
    && d.rx.num == 1 && d.rx.give == RxGiveback(RecvReady, 0, None) && d.rx.xfer == Some(Transfer(0, CBW_LEN))
    && d.tx.num == 0 && d.tx.give.status == SendFinishedOk && d.tx.xfer == None
    && d.pre.lba == 0 && d.pre.blocks == 0
    && d.media == m && Addressable(m)
    && d.t.cbws == [] && d.t.csws == [] && d.t.log == []
  }
}
