/** The RockUSB engine in the form of its source: one object whose handlers update its fields and its four
    buffers in place. Every method is proved to do exactly what RockusbModel says. */
module RockusbEngine {
  import opened Bytes
  import opened BlockStore
  import opened RockusbModel
  import opened RockusbInvariant
  import opened RockusbTheorems
  import opened RockusbProgress

  /** struct cmd_rockusb_interface, the endpoints' outstanding requests, and the medium. */
  class UsbCmd {
    var status: Status
    var cbw: Cbw
    var cmnd: byte
    var csw: CswInfo
    var transferSize: nat
    const rxBuffer0: array<byte>
    const rxBuffer1: array<byte>
    const txBuffer0: array<byte>
    const txBuffer1: array<byte>
    var rxbufNum: Slot
    var txbufNum: Slot
    var rxGiveback: RxGiveback
    var txGiveback: TxGiveback
    var rxXfer: Option<Transfer>
    var txXfer: Option<Transfer>
    var dSize: nat
    var dBytes: nat
    var uSize: nat
    var uBytes: nat
    var lba: u32
    var preRead: PreRead
    const secureBootLock: bool
    var media: Media
    ghost var trace: Trace
    ghost const initial: Media

    ghost predicate Valid()
      reads this, rxBuffer0, rxBuffer1, txBuffer0, txBuffer1
    {
      && rxBuffer0 != rxBuffer1 && txBuffer0 != txBuffer1
      && rxBuffer0 != txBuffer0 && rxBuffer0 != txBuffer1 && rxBuffer1 != txBuffer0 && rxBuffer1 != txBuffer1
      && Wf(Snapshot())
    }

    ghost function RxBufs(): seq<seq<byte>>
      reads rxBuffer0, rxBuffer1
    {
      [rxBuffer0[..], rxBuffer1[..]]
    }

    ghost function TxBufs(): seq<seq<byte>>
      reads txBuffer0, txBuffer1
    {
      [txBuffer0[..], txBuffer1[..]]
    }

    /** The object's state as a value. */
    ghost function Snapshot(): Dev
      reads this, rxBuffer0, rxBuffer1, txBuffer0, txBuffer1
    {
      Dev(status, cbw, cmnd, csw, transferSize,
          Rx(RxBufs(), rxbufNum, rxGiveback, rxXfer),
          Tx(TxBufs(), txbufNum, txGiveback, txXfer),
          dSize, dBytes, uSize, uBytes, lba, preRead, secureBootLock, media, trace)
    }

    /** After power-on and the DEVICE_CONFIGURED event: a CBW receive is posted. */
    constructor (size: nat, m: Media, locked: bool)
      requires size >= 528 * BUFFER_BLOCK_MAX && Addressable(m)
      ensures Valid() && fresh({rxBuffer0, rxBuffer1, txBuffer0, txBuffer1})
      ensures Configured(Snapshot(), m) && initial == m && secureBootLock == locked
    {
      status, cbw, cmnd, csw, transferSize := Idle, Zeros(CBW_LEN), 0, CswInfo([], 0), 0;
      rxBuffer0, rxBuffer1 := new byte[size](_ => 0), new byte[size](_ => 0);
      txBuffer0, txBuffer1 := new byte[size](_ => 0), new byte[size](_ => 0);
      rxbufNum, rxGiveback, rxXfer := 1, RxGiveback(RecvReady, 0, None), Some(Transfer(0, CBW_LEN));
      txbufNum, txGiveback, txXfer := 0, TxGiveback(SendFinishedOk, 0, None), None;
      dSize, dBytes, uSize, uBytes, lba := 0, 0, 0, 0, 0;
      preRead, media, secureBootLock := PreRead(None, 0, 0), m, locked;
      trace, initial := Trace([], [], [], Backend(CswInfo([], 0), false, m, [], [], [], []), m, [], [], [], []), m;
    }

    function TxBuffer(slot: Slot): (b: array<byte>)
      ensures b == if slot == 0 then txBuffer0 else txBuffer1
    {
      if slot == 0 then txBuffer0 else txBuffer1
    }

    function RxBuffer(slot: Slot): (b: array<byte>)
      ensures b == if slot == 0 then rxBuffer0 else rxBuffer1
    {
      if slot == 0 then rxBuffer0 else rxBuffer1
    }

    /** rkusb_write_bulk_ep on the current buffer, and the switch to the other one. */
    method WriteBulkEp(len: nat)
      requires Valid() && len <= |Snapshot().tx.bufs[txbufNum]|
      modifies this
      ensures Valid() && Snapshot() == PostIn(old(Snapshot()), len)
    {
      txGiveback := TxGiveback(SendInProgress, 0, None);
      txXfer := Some(Transfer(txbufNum, len));
      txbufNum := Other(txbufNum);
    }

    method ReadBulkEp(len: nat)
      requires Valid() && len <= |Snapshot().rx.bufs[rxbufNum]|
      modifies this
      ensures Valid() && Snapshot() == PostOut(old(Snapshot()), len)
    {
      rxGiveback := RxGiveback(RecvReady, 0, None);
      rxXfer := Some(Transfer(rxbufNum, len));
      rxbufNum := Other(rxbufNum);
    }

    /** Writes `data` at the start of the current tx buffer, in place. */
    method FillTxBuffer(data: seq<byte>)
      requires Valid() && |data| <= |Snapshot().tx.bufs[txbufNum]|
      modifies txBuffer0, txBuffer1
      ensures Valid() && Snapshot() == FillTx(old(Snapshot()), data)
    {
      ghost var was := Snapshot();
      Copy(TxBuffer(txbufNum), 0, data);
      assert Snapshot().tx.bufs == was.tx.bufs[txbufNum := Overlay(was.tx.bufs[txbufNum], 0, data)];
    }

    /** The command is over once its CSW is queued. */
    method EndCommand(ghost packet: seq<byte>)
      requires Valid()
      modifies this
      ensures Valid()
      ensures Snapshot() == var d := old(Snapshot()); d.(status := Idle, t := d.t.(csws := d.t.csws + [packet]))
    {
      status := Idle;
      trace := trace.(csws := trace.csws + [packet]);
    }

    /** rkusb_send_csw */
    method TransmitCsw()
      requires Valid()
      modifies this, txBuffer0, txBuffer1
      ensures Valid() && Snapshot() == SendCsw(old(Snapshot()))
    {
      if txGiveback.status != SendFinishedOk {
        return;
      }
      var packet := CswPacket(cbw, csw);
      FillTxBuffer(packet);
      WriteBulkEp(CSW_LEN);
      ReadBulkEp(CBW_LEN);
      EndCommand(packet);
    }

    /** The current tx buffer gets a short reply. */
    method PrepareReply(data: seq<byte>, size: nat)
      requires Valid() && size <= 64
      modifies this, txBuffer0, txBuffer1
      ensures Valid() && Snapshot() == Reply(old(Snapshot()), data, size)
    {
      FillTxBuffer(Exactly(data, size));
      transferSize := size;
      csw := Good(cbw);
      status := TxData;
    }

    /** FW_Read10 and FW_LBARead10 */
    method FwRead()
      requires Valid()
      modifies this
      ensures Valid() && Snapshot() == StartRead(old(Snapshot()))
    {
      hide Buffers, RxBufs, TxBufs;
      uSize := Size(KindOf(cmnd), Sectors(cbw));
      uBytes := 0;
      lba := Offset(cbw);
      status := TxDataPrepare;
    }

    /** A write command's counters and first block. */
    method SetWriteRequest()
      requires Valid()
      modifies this
      ensures Valid()
      ensures Snapshot() == var d := old(Snapshot());
              d.(dSize := Size(KindOf(d.cmnd), Sectors(d.cbw)), dBytes := 0, lba := Offset(d.cbw))
    {
      hide Buffers, RxBufs, TxBufs;
      dSize := Size(KindOf(cmnd), Sectors(cbw));
      dBytes := 0;
      lba := Offset(cbw);
    }

    /** The write commands' cache check on `blocks` blocks from lba. */
    method DropOverlap(blocks: nat)
      requires Valid()
      modifies this
      ensures Valid()
      ensures Snapshot() == var d := old(Snapshot());
              if MayOverlap(d.lba, blocks, d.pre) then d.(pre := d.pre.(lba := 0, blocks := 0)) else d
    {
      if MayOverlap(lba, blocks, preRead) {
        preRead := preRead.(lba := 0, blocks := 0);
      }
    }

    /** FW_Write10 and FW_LBAWrite10 */
    method FwWrite()
      requires Valid()
      modifies this
      ensures Valid() && Snapshot() == StartWrite(old(Snapshot()))
    {
      BlockArithmetic(KindOf(cmnd), Sectors(cbw), 0);
      hide Buffers, RxBufs, TxBufs, MayOverlap, Offset, Sectors, Size, Whole, KindOf;
      SetWriteRequest();
      DropOverlap(Whole(KindOf(cmnd), dSize));
      rxGiveback := rxGiveback.(actual := 0);
      status := RxDataPrepare;
    }

    /** FW_Erase10 and FW_Erase10Force */
    method FwErase(b: Backend)
      requires Valid()
      modifies this
      ensures Valid() && Snapshot() == Erase(old(Snapshot()), b)
    {
      var failed := false;
      if !secureBootLock {
        media := Left(media, b.media);
        failed := b.eraseFailed;
      }
      csw := CswInfo(Residue(cbw), if failed then CSW_FAIL else CSW_GOOD);
      status := Csw;
    }

    /** The received CBW becomes the current command. */
    method TakeCommand(ghost b: Backend)
      requires Valid() && rxGiveback.actual > 0
      modifies this
      ensures Valid()
      ensures Snapshot() == Taken(old(Snapshot()), b)
    {
      assert |RxBuffer(rxGiveback.buf.value)[..]| >= CBW_LEN;
      hide TxBufs, RxBufs, Buffers;
      cbw := RxBuffer(rxGiveback.buf.value)[..CBW_LEN];
      cmnd := cbw[15];
      status := Cmd;
      trace := trace.(cbws := trace.cbws + [cbw], answer := b, start := media,
                      fetched := [], toHost := [], fromHost := [], kept := []);
    }

    /** A command whose whole effect is its CSW, and the format if it enables one. */
    method OnlyCsw(info: CswInfo, b: Backend)
      requires Valid()
      modifies this
      ensures Valid() && Snapshot() == Format(old(Snapshot()), b).(csw := info, status := Csw)
    {
      csw := info;
      status := Csw;
      if Formats(cbw) {
        media := Left(media, b.media);
      }
    }

    /** do_rockusb_cmd */
    method DoRockusbCmd(b: Backend)
      requires Valid() && rxGiveback.actual > 0
      modifies this, txBuffer0, txBuffer1
      ensures Valid() && Snapshot() == Dispatch(old(Snapshot()), b)
    {
      hide Taken, Reply, StartRead, StartWrite, Erase, Format, Buffers, RxBufs, TxBufs;
      hide IsRead, IsWrite, IsErase, IsPlain;
      TakeCommand(b);
      if cmnd == TEST_UNIT_READY {
        OnlyCsw(b.ready, b);
      } else if cmnd == READ_FLASH_ID {
        PrepareReply(b.id, 5);
      } else if cmnd == TEST_BAD_BLOCK {
        PrepareReply(Zeros(64), 64);
      } else if cmnd == READ_FLASH_INFO {
        PrepareReply(b.info, 11);
      } else if cmnd == GET_CHIP_VER {
        PrepareReply(b.chip, 16);
      } else if IsRead(cmnd) {
        FwRead();
      } else if IsWrite(cmnd) {
        FwWrite();
      } else if IsErase(cmnd) {
        FwErase(b);
      } else if IsPlain(cmnd) {
        OnlyCsw(Good(cbw), b);
      }
    }

    /** The counters after a chunk of `size` bytes. */
    method Advance(size: nat, blocks: nat)
      requires Valid() && size <= uSize - uBytes && blocks <= preRead.blocks
      modifies this
      ensures Valid()
      ensures Snapshot() == var d := old(Snapshot());
              d.(uBytes := d.uBytes + size, lba := U32(d.lba + blocks), pre := d.pre.(blocks := d.pre.blocks - blocks))
    {
      hide Buffers, RxBufs, TxBufs, U32;
      uBytes := uBytes + size;
      lba := U32(lba + blocks);
      preRead := preRead.(blocks := preRead.blocks - blocks);
    }

    /** The first half of a pass of rkusb_handle_datatx: the chunk is queued if the window holds it. */
    method QueueChunk() returns (blocks: nat)
      requires Valid()
      modifies this
      ensures Valid() && Snapshot() == SendChunk(old(Snapshot())) && blocks == ChunkBlocks(old(Snapshot()))
      ensures blocks <= BUFFER_BLOCK_MAX
    {
      var size := uSize - uBytes;
      blocks := Whole(KindOf(cmnd), size);
      if blocks >= BUFFER_BLOCK_MAX {
        blocks := BUFFER_BLOCK_MAX;
        size := Size(KindOf(cmnd), blocks);
      }
      if blocks > 0 && preRead.blocks >= blocks && preRead.lba == lba {
        Advance(size, blocks);
        WriteBulkEp(size);
      }
    }

    /** The second half: the window is refilled from the medium, or emptied after the last chunk. */
    method Prefetch(blocks: nat, b: Backend)
      requires Valid() && blocks <= BUFFER_BLOCK_MAX
      modifies this, txBuffer0, txBuffer1
      ensures Valid() && Snapshot() == Refill(old(Snapshot()), blocks, b)
    {
      if uSize == uBytes {
        preRead := preRead.(lba := 0, blocks := 0);
      } else if uBytes == 0 || blocks == BUFFER_BLOCK_MAX {
        preRead := PreRead(Some(txbufNum), lba, blocks);
        var data := StorageRead(media, KindOf(cmnd), lba, blocks, b.junk);
        FillTxBuffer(data);
        trace := trace.(fetched := trace.fetched + data);
      }
    }

    /** One pass of rkusb_handle_datatx, from `start` to the jump back. */
    method DataTxPass(b: Backend)
      requires Valid()
      modifies this, txBuffer0, txBuffer1
      ensures Valid() && Snapshot() == TxPass(old(Snapshot()), b)
    {
      hide SendChunk, Refill, Buffers;
      var blocks := QueueChunk();
      Prefetch(blocks, b);
    }

    /** The end of rkusb_handle_datatx: after the last chunk only the CSW is missing. */
    method EndDataTx()
      requires Valid() && uBytes != 0
      modifies this
      ensures Valid() && Snapshot() == AfterPass(old(Snapshot()))
    {
      if uSize == uBytes {
        csw := Good(cbw);
        status := Csw;
      }
    }

    /** rkusb_handle_datatx: from `start` again and again until something has been sent. Only called with
        blocks left to send; without them the loop would not end (ReadLoopStops). */
    method ServeRead(b: Backend) returns (passes: nat)
      requires Valid() && Inv(initial, Snapshot()) && status == TxDataPrepare && uBytes < uSize
      requires txGiveback.status == SendFinishedOk
      modifies this, txBuffer0, txBuffer1
      ensures Valid() && Snapshot() == HandleDataTx(old(Snapshot()), b)
      ensures passes == if old(uBytes) == 0 then 2 else 1
    {
      hide Inv, TxPass, Buffers, AfterPass, HandleDataTx, RxBufs, TxBufs;
      ghost var d := Snapshot();
      PassesNeeded(initial, d, b);
      passes := 0;
      var again := true;
      while again
        invariant Valid() && passes <= 2 && (passes == 2 ==> d.uBytes == 0)
        invariant Snapshot() == if passes == 0 then d else if passes == 1 then TxPass(d, b) else TxPass(TxPass(d, b), b)
        invariant again <==> passes == 0 || (passes == 1 && d.uBytes == 0)
        decreases 2 - passes
      {
        DataTxPass(b);
        passes := passes + 1;
        again := uBytes == 0;
      }
      AfterPassIs(d, Snapshot(), b);
      EndDataTx();
    }

    /** The first half of rkusb_handle_datarx: ask for more, or queue the CSW. */
    method RequestOrFinish()
      requires Valid()
      modifies this, txBuffer0, txBuffer1
      ensures Valid() && Snapshot() == AskOrFinish(old(Snapshot()))
    {
      if dBytes < dSize {
        var wanted := Min(Whole(KindOf(cmnd), dSize - dBytes), BUFFER_BLOCK_MAX);
        ReadBulkEp(Size(KindOf(cmnd), wanted));
        status := RxData;
      } else {
        csw := Good(cbw);
        TransmitCsw();
      }
    }

    /** The second half: the whole blocks among the `received` bytes of buffer `slot` go to the medium. */
    method StoreReceived(slot: Slot, received: nat, b: Backend)
      requires Valid() && received <= RxBuffer(slot).Length
      modifies this
      ensures Valid() && Snapshot() == Flush(old(Snapshot()), old(RxBuffer(slot)[..received]), b)
    {
      var k := KindOf(cmnd);
      var blocks := Whole(k, received);
      WholeFits(k, received);
      if blocks > 0 && IsWrite(cmnd) && !secureBootLock {
        var data := RxBuffer(slot)[..Size(k, blocks)];
        assert data == WholeBlocks(k, RxBuffer(slot)[..received]);
        media := StorageWrite(media, k, lba, data, b.media);
        lba := U32(lba + blocks);
      }
    }

    /** rkusb_handle_datarx: what the completion brought is flushed last, out of the buffer it named. */
    method ServeWrite(b: Backend)
      requires Valid()
      modifies this, txBuffer0, txBuffer1
      ensures Valid() && Snapshot() == HandleDataRx(old(Snapshot()), b)
    {
      hide Flush, AskOrFinish, Aligned, Buffers;
      ghost var d := Snapshot();
      var received, from := rxGiveback.actual, rxGiveback.buf;
      dBytes := dBytes + received;
      assert Snapshot() == Counted(d);
      RequestOrFinish();
      var slot := if received > 0 then from.value else 0;
      assert RxBuffer(slot)[..received] == Received(d);
      StoreReceived(slot, received, b);
    }

    /** rkusb_handle_response */
    method HandleResponse(b: Backend)
      requires Valid() && Inv(initial, Snapshot()) && !(status == TxDataPrepare && uSize == 0)
      modifies this, txBuffer0, txBuffer1
      ensures Valid() && Snapshot() == Respond(old(Snapshot()), b)
    {
      hide Inv, Buffers, RxBufs, TxBufs, HandleDataTx, HandleDataRx;
      ResponseReady(initial, Snapshot());
      match status
      case TxData =>
        WriteBulkEp(transferSize);
        csw := Good(cbw);
        status := Csw;
      case RxData =>
        if rxGiveback.status == RecvOk {
          ServeWrite(b);
        }
      case RxDataPrepare =>
        ServeWrite(b);
      case TxDataPrepare =>
        if uBytes == 0 || txGiveback.status == SendFinishedOk {
          var passes := ServeRead(b);
        }
      case _ =>
    }

    /** One round of the loop in do_rockusb. */
    method PollOnce(b: Backend)
      requires Valid() && Inv(initial, Snapshot()) && !Hangs(Snapshot())
      modifies this, txBuffer0, txBuffer1
      ensures Valid() && Snapshot() == Poll(old(Snapshot()), b)
    {
      hide Inv, Dispatch, Respond, SendCsw, Buffers;
      ghost var d := Snapshot();
      NotHung(initial, d, b);
      if status == Idle && rxGiveback.actual > 0 {
        DoRockusbCmd(b);
      }
      HandleResponse(b);
      if status == Csw {
        TransmitCsw();
      }
    }

    /** dwc3_tx_handler; the host has taken the bytes the buffer holds now. */
    method TxHandler(failed: bool)
      requires Valid() && txXfer.Some?
      modifies this
      ensures Valid() && Snapshot() == Step(old(Snapshot()), if failed then TxFailed else TxDone)
    {
      hide Buffers, RxBufs, TxBufs;
      ghost var payload := InFlight(Snapshot());
      var x := txXfer.value;
      txXfer := None;
      if failed {
        txGiveback := txGiveback.(status := SendFinishedError);
      } else {
        txGiveback := TxGiveback(SendFinishedOk, x.len, Some(x.buf));
        trace := if status == Idle
                 then trace.(log := trace.log + [Entry(cbw, trace.answer, trace.start, trace.toHost, trace.fromHost,
                                                       trace.kept, payload, media)])
                 else trace.(toHost := trace.toHost + payload);
      }
    }

    /** The controller writes received data at the start of a buffer. */
    method Deliver(slot: Slot, data: seq<byte>)
      requires Valid() && |data| <= |Snapshot().rx.bufs[slot]|
      modifies rxBuffer0, rxBuffer1
      ensures Valid()
      ensures Snapshot() == var d := old(Snapshot());
              d.(rx := d.rx.(bufs := d.rx.bufs[slot := Overlay(d.rx.bufs[slot], 0, data)]))
    {
      ghost var was := RxBufs();
      Copy(RxBuffer(slot), 0, data);
      assert RxBufs() == was[slot := Overlay(was[slot], 0, data)];
    }

    /** dwc3_rx_handler with status 0; the controller has put the data into the posted buffer. */
    method RxHandler(data: seq<byte>)
      requires Valid() && Enabled(Snapshot(), RxDone(data))
      modifies this, rxBuffer0, rxBuffer1
      ensures Valid() && Snapshot() == Step(old(Snapshot()), RxDone(data))
    {
      hide Buffers, RxBufs, TxBufs, Overlay, WholeBlocks, KindOf, Poll, CompleteTx;
      var slot := rxXfer.value.buf;
      Deliver(slot, data);
      rxXfer := None;
      rxGiveback := RxGiveback(RecvOk, |data|, Some(slot));
      if status == RxData {
        trace := trace.(fromHost := trace.fromHost + data, kept := trace.kept + WholeBlocks(KindOf(cmnd), data));
      }
    }

    /** dwc3_rx_handler with a status other than 0. */
    method RxFailure()
      requires Valid() && rxXfer.Some?
      modifies this
      ensures Valid() && Snapshot() == Step(old(Snapshot()), RxFailed)
    {
      rxXfer := None;
      rxGiveback := rxGiveback.(status := RecvError);
    }

    /** The endless loop of do_rockusb against any script of polls and completions; it stops early only where the
        source never comes back from rkusb_handle_datatx. Events that cannot happen are skipped. */
    method DoRockusb(script: seq<Event>) returns (n: nat)
      requires Valid() && Configured(Snapshot(), initial)
      modifies this, rxBuffer0, rxBuffer1, txBuffer0, txBuffer1
      ensures Valid() && n <= |script| && Snapshot() == Run(old(Snapshot()), script[..n])
      ensures n < |script| ==> script[n].Polled? && Hangs(Snapshot())
      ensures Inv(initial, Snapshot())
    {
      ghost var d := Snapshot();
      n := 0;
      ConfiguredInv(d, initial);
      while n < |script|
        invariant Valid() && n <= |script| && Snapshot() == Run(d, script[..n])
        invariant Inv(initial, Snapshot())
      {
        var ok := Serve(script[n]);
        if !ok {
          return;
        }
        RunMore(d, script, n);
        n := n + 1;
      }
    }

    /** One event of a script, if it can happen and can be handled. */
    method Serve(ev: Event) returns (ok: bool)
      requires Valid() && Inv(initial, Snapshot())
      modifies this, rxBuffer0, rxBuffer1, txBuffer0, txBuffer1
      ensures Valid() && Inv(initial, Snapshot())
      ensures Snapshot() == if ok then Step(old(Snapshot()), ev) else old(Snapshot())
      ensures !ok ==> ev.Polled? && Hangs(Snapshot())
    {
      hide Inv, Hangs, Poll, CompleteTx, CompleteRx, Buffers, RxBufs, TxBufs;
      ok := true;
      if Possible(ev) {
        if ev.Polled? && WouldHang() {
          return false;
        }
        StepInv(initial, Snapshot(), ev);
        DoEvent(ev);
      }
    }

    /** The event can happen in the current state. */
    predicate Possible(ev: Event)
      requires Valid()
      reads this, rxBuffer0, rxBuffer1, txBuffer0, txBuffer1
      ensures Possible(ev) == Enabled(Snapshot(), ev)
    {
      match ev
      case Polled(_) => true
      case TxDone => txXfer.Some?
      case TxFailed => txXfer.Some?
      case RxFailed => rxXfer.Some?
      case RxDone(data) =>
        rxXfer.Some? && |data| <= rxXfer.value.len && (status == Idle ==> txGiveback.status == SendFinishedOk)
    }

    predicate WouldHang()
      requires Valid()
      reads this, rxBuffer0, rxBuffer1, txBuffer0, txBuffer1
      ensures WouldHang() == Hangs(Snapshot())
    {
      if status == Idle && rxGiveback.actual > 0 then
        var c := RxBuffer(rxGiveback.buf.value)[..CBW_LEN];
        IsRead(c[15]) && Sectors(c) == 0
      else status == TxDataPrepare && uSize == 0
    }

    method DoEvent(ev: Event)
      requires Valid() && Enabled(Snapshot(), ev) && Inv(initial, Snapshot()) && (ev.Polled? ==> !Hangs(Snapshot()))
      modifies this, rxBuffer0, rxBuffer1, txBuffer0, txBuffer1
      ensures Valid() && Snapshot() == Step(old(Snapshot()), ev)
    {
      hide Inv, Poll;
      match ev
      case Polled(b) => PollOnce(b);
      case TxDone => TxHandler(false);
      case TxFailed => TxHandler(true);
      case RxDone(data) => RxHandler(data);
      case RxFailed => RxFailure();
    }
  }

  /** The next poll would not return: a read of no blocks is waiting, or being handled. */
  predicate Hangs(d: Dev)
    requires Wf(d)
  {
    || (CbwWaits(d) && IsRead(PendingCbw(d)[15]) && Sectors(PendingCbw(d)) == 0)
    || (d.status == TxDataPrepare && d.uSize == 0)
  }

  lemma NotHung(m0: Media, d: Dev, b: Backend)
    requires Inv(m0, d) && !Hangs(d)
    ensures var e := if CbwWaits(d) then Dispatch(d, b) else d;
            Inv(m0, e) && !(e.status == TxDataPrepare && e.uSize == 0)
  {
    hide History, Phase, Links;
    if CbwWaits(d) {
      DispatchInv(m0, d, b);
      DispatchLive(m0, d, b);
    }
  }

  lemma RunMore(d: Dev, script: seq<Event>, n: nat)
    requires Wf(d) && n < |script|
    ensures Run(d, script[..n + 1]) == Step(Run(d, script[..n]), script[n])
  {
    hide Step;
    assert script[..n + 1][..n] == script[..n];
  }

  /** A read that is under way has blocks left, and a reply fits its buffer. */
  lemma ResponseReady(m0: Media, d: Dev)
    requires Inv(m0, d)
    ensures d.transferSize <= |d.tx.bufs[d.tx.num]|
    ensures d.status == TxDataPrepare && d.uSize > 0 ==> d.uBytes < d.uSize && (d.uBytes == 0 ==> TxFree(d))
  {
    hide History, Windows, Links;
  }

  lemma WholeFits(k: Kind, bytes: nat)
    ensures Size(k, Whole(k, bytes)) <= bytes
    ensures Whole(k, bytes) > 0 ==> bytes > 0
  {
  }

  lemma AfterPassIs(d: Dev, e: Dev, b: Backend)
    requires Wf(d) && e == (if TxPass(d, b).uBytes == 0 then TxPass(TxPass(d, b), b) else TxPass(d, b))
    ensures HandleDataTx(d, b) == AfterPass(e)
  {
    hide TxPass;
  }

  /** When the loop of rkusb_handle_datatx stops: after one pass in the middle of a read, after two at its start. */
  lemma PassesNeeded(m0: Media, d: Dev, b: Backend)
    requires Inv(m0, d) && d.status == TxDataPrepare && d.uBytes < d.uSize && TxFree(d)
    ensures d.uBytes == 0 <==> TxPass(d, b).uBytes == 0
    ensures d.uBytes == 0 ==> TxPass(TxPass(d, b), b).uBytes > 0
  {
    hide History, Windows, TxPass, Links, PhaseRead, WindowStart, NextWindow;
    assert Addressable(d.media);
    PassFrame(d, b);
    if d.uBytes == 0 {
      SizeSign(d);
      FirstPass(d, b);
      LoadedPass(TxPass(d, b), b);
    } else {
      WindowLoaded(d);
      LoadedPass(d, b);
    }
  }
}
