/** The invariant of every run of the RockUSB engine, and the lemmas that each handler and each
    completion keeps it. */
module RockusbInvariant {
  import opened Bytes
  import opened BlockStore
  import opened RockusbModel

  // ----- what a finished command must look like -----

  /** Blocks the engine reads from the medium for an n-block read: beyond one buffer the last window is a full one. */
  function Reach(n: nat): nat {
    if n <= BUFFER_BLOCK_MAX then n else (n + BUFFER_BLOCK_MAX - 1) / BUFFER_BLOCK_MAX * BUFFER_BLOCK_MAX
  }

  /** Reads fetch windows of 0x80 blocks; only the first one may be shorter, never the last. */
  predicate WindowStart(done: nat) {
    done % BUFFER_BLOCK_MAX == 0
  }

  function WindowLen(cbw: Cbw, done: nat): nat {
    if done == 0 then Min(Sectors(cbw), BUFFER_BLOCK_MAX) else BUFFER_BLOCK_MAX
  }

  /** The whole window that begins `done` blocks into the request is on the medium. */
  predicate WindowOn(m: Media, cbw: Cbw, done: nat) {
    InRange(m, KindOf(cbw[15]), Offset(cbw) + done, WindowLen(cbw, done))
  }

  /** Blocks of that window among those `data` holds. */
  function Held(cbw: Cbw, data: seq<byte>, done: nat): (r: int)
    ensures done <= Whole(KindOf(cbw[15]), |data|) ==> r >= 0
  {
    Min(WindowLen(cbw, done), Whole(KindOf(cbw[15]), |data|) - done)
  }

  predicate WindowExact(m: Media, cbw: Cbw, data: seq<byte>, done: nat)
    requires done <= Whole(KindOf(cbw[15]), |data|)
  {
    var k, at, n := KindOf(cbw[15]), Offset(cbw) + done, Held(cbw, data, done);
    WindowOn(m, cbw, done) ==>
      && InRange(m, k, at, n)
      && Size(k, done + n) <= |data| && data[Size(k, done)..Size(k, done + n)] == Blocks(m, k, at, n)
  }

  /** `data` is whole blocks of the request from its start on, exact in every window that is on the medium. */
  ghost predicate Windows(m: Media, cbw: Cbw, data: seq<byte>)
  {
    && Aligned(KindOf(cbw[15]), |data|)
    && forall done: nat :: WindowStart(done) && done < Whole(KindOf(cbw[15]), |data|) ==>
         WindowExact(m, cbw, data, done)
  }

  /** All windows of a read are on the medium (ReadFitsIff). */
  predicate ReadFits(m: Media, cbw: Cbw)
  {
    InRange(m, KindOf(cbw[15]), Offset(cbw), Reach(Sectors(cbw)))
  }

  predicate WriteFits(m: Media, cbw: Cbw)
  {
    InRange(m, KindOf(cbw[15]), Offset(cbw), Sectors(cbw))
  }

  /** A CSW answers a CBW: right length, signature and tag (sections 5.1 and 5.2). */
  predicate Answers(csw: seq<byte>, cbw: Cbw) {
    && |csw| == CSW_LEN
    && csw[..4] == CSW_SIGNATURE
    && csw[4..8] == Tag(cbw)
  }

  /** What a command other than a read or a write sends, reports, and leaves on the medium. */
  function ReplyOf(op: byte, b: Backend): seq<byte> {
    if op == READ_FLASH_ID then Exactly(b.id, 5)
    else if op == TEST_BAD_BLOCK then Zeros(64)
    else if op == READ_FLASH_INFO then Exactly(b.info, 11)
    else if op == GET_CHIP_VER then Exactly(b.chip, 16)
    else []
  }

  function ReportOf(cbw: Cbw, b: Backend, locked: bool): CswInfo {
    if cbw[15] == TEST_UNIT_READY then b.ready
    else if IsErase(cbw[15]) && !locked && b.eraseFailed then CswInfo(Residue(cbw), CSW_FAIL)
    else Good(cbw)
  }

  function EffectOf(cbw: Cbw, b: Backend, m: Media, locked: bool): Media {
    if (IsErase(cbw[15]) && !locked) || Formats(cbw) then Left(m, b.media) else m
  }

  /** What is kept of the bytes from the host: whole blocks, and as many bytes only if it is all of them. */
  predicate KeptOf(k: Kind, kept: seq<byte>, from: seq<byte>) {
    |kept| <= |from| && Aligned(k, |kept|) && (|kept| == |from| ==> kept == from)
  }

  ghost predicate ReadDone(e: Entry)
  {
    var k, n := KindOf(e.cbw[15]), Sectors(e.cbw);
    && e.after == e.before && e.fromHost == []
    && |e.toHost| == Size(k, n)
    && Windows(e.before, e.cbw, e.toHost)
  }

  /** The whole blocks of each completion have landed back to back from the first block on; nothing else has changed. */
  predicate WriteDone(e: Entry, locked: bool)
  {
    var k, first, n := KindOf(e.cbw[15]), Offset(e.cbw), Sectors(e.cbw);
    && e.toHost == []
    && |e.fromHost| == Size(k, n) && KeptOf(k, e.kept, e.fromHost)
    && (locked ==> e.after == e.before)
    && (!locked && WriteFits(e.before, e.cbw) ==>
          Size(k, first) + |e.kept| <= |Space(e.before, k)| && e.after == Stored(e.before, k, first, e.kept))
  }

  predicate OtherDone(e: Entry, locked: bool)
  {
    var op := e.cbw[15];
    && (ReplySize(op) > 0 || IsPlain(op))
    && e.toHost == ReplyOf(op, e.answer) && e.fromHost == []
    && e.after == EffectOf(e.cbw, e.answer, e.before, locked)
  }

  ghost predicate Correct(e: Entry, locked: bool) {
    && Answers(e.csw, e.cbw)
    && SameSize(e.before, e.after)
    && e.csw == CswPacket(e.cbw, ReportOf(e.cbw, e.answer, locked))
    && if IsRead(e.cbw[15]) then ReadDone(e)
       else if IsWrite(e.cbw[15]) then WriteDone(e, locked)
       else OtherDone(e, locked)
  }

  /** The log is a chain of correct commands that leads from medium m0 to medium m. */
  ghost predicate Explained(m0: Media, log: seq<Entry>, m: Media, locked: bool)
    decreases |log|
  {
    if log == [] then m == m0
    else
      var last := log[|log| - 1];
      Explained(m0, log[..|log| - 1], last.before, locked) && last.after == m && Correct(last, locked)
  }

  // ----- the invariant -----

  /** A dispatched command whose CSW the host does not have yet. */
  predicate Pending(d: Dev) {
    d.status != Idle || d.tx.give.status != SendFinishedOk
  }

  predicate Links(d: Dev)
    requires Wf(d)
  {
    && (d.tx.give.status == SendInProgress <==> d.tx.xfer.Some?)
    && (d.tx.xfer.Some? ==> d.tx.xfer.value.buf == Other(d.tx.num))
    && (d.rx.give.status == RecvReady <==> d.rx.xfer.Some?)
    && (d.rx.xfer.Some? ==> d.rx.xfer.value.buf == Other(d.rx.num) && d.rx.give.actual == 0)
    && (d.rx.give.actual > 0 ==> d.rx.give.buf == Some(Other(d.rx.num)) && d.rx.give.status == RecvOk)
    && (d.status != Idle && d.status != RxData ==> d.rx.xfer.None?)
  }

  predicate CacheEmpty(d: Dev) {
    d.pre.lba == 0 && d.pre.blocks == 0
  }

  predicate TxFree(d: Dev) {
    d.tx.give.status == SendFinishedOk
  }

  /** The command under way as the log entry it would become with this CSW. */
  function Current(d: Dev, csw: seq<byte>): Entry {
    Entry(d.cbw, d.t.answer, d.t.start, d.t.toHost, d.t.fromHost, d.t.kept, csw, d.media)
  }

  ghost predicate PhaseIdle(d: Dev)
    requires Wf(d)
  {
    && CacheEmpty(d)
    && (d.rx.xfer.Some? ==> d.rx.xfer.value.len == CBW_LEN)
    && d.rx.give.actual <= CBW_LEN
    && (d.rx.give.actual > 0 ==> TxFree(d))
    && (Pending(d) ==>
          && |d.t.csws| > 0
          && Correct(Current(d, d.t.csws[|d.t.csws| - 1]), d.locked)
          && (d.tx.xfer.Some? ==> InFlight(d) == d.t.csws[|d.t.csws| - 1]))
  }

  function DoneBlocks(d: Dev): nat {
    Whole(KindOf(d.cmnd), d.uBytes)
  }

  /** Delivered plus in flight is exactly as much of what was fetched as has been handed to the controller.
      Nothing is claimed once a transfer has failed. */
  predicate Piped(d: Dev)
    requires Wf(d)
  {
    && d.uBytes <= |d.t.fetched|
    && (d.tx.give.status != SendFinishedError ==> d.t.toHost + InFlight(d) == d.t.fetched[..d.uBytes])
  }

  /** A read whose first uBytes have been handed to the controller. */
  ghost predicate PhaseRead(d: Dev)
    requires Wf(d)
  {
    var k, done := KindOf(d.cmnd), DoneBlocks(d);
    && d.cmnd == d.cbw[15] && IsRead(d.cmnd)
    && d.uSize == Size(k, Sectors(d.cbw)) && d.uBytes == Size(k, done) && done <= Sectors(d.cbw)
    && d.lba == U32(Offset(d.cbw) + done)
    && d.media == d.t.start && d.t.fromHost == []
    && Windows(d.media, d.cbw, d.t.fetched) && Piped(d)
  }

  /** The prefetch invariant: the window starts at the next block to send, is a full buffer, sits in the
      buffer sent next, and holds what was fetched last. */
  predicate WindowReady(d: Dev)
    requires Wf(d)
  {
    && d.pre == PreRead(Some(d.tx.num), d.lba, BUFFER_BLOCK_MAX)
    && WindowStart(DoneBlocks(d))
    && |d.t.fetched| == d.uBytes + Size(KindOf(d.cbw[15]), BUFFER_BLOCK_MAX)
    && d.tx.bufs[d.tx.num][..Size(KindOf(d.cbw[15]), BUFFER_BLOCK_MAX)] == d.t.fetched[d.uBytes..]
  }

  ghost predicate PhaseTxDataPrepare(d: Dev)
    requires Wf(d)
  {
    && PhaseRead(d)
    && if d.uBytes == 0 then CacheEmpty(d) && TxFree(d) && d.t.fetched == []
       else d.uBytes < d.uSize && WindowReady(d)
  }

  predicate PhaseWrite(d: Dev)
    requires Wf(d)
  {
    var k, first, n := KindOf(d.cmnd), Offset(d.cbw), Sectors(d.cbw);
    && d.cmnd == d.cbw[15] && IsWrite(d.cmnd)
    && d.dSize == Size(k, n) && d.dBytes + d.rx.give.actual <= d.dSize
    && d.t.toHost == []
    && CacheEmpty(d) && TxFree(d)
    && |d.t.fromHost| == d.dBytes + d.rx.give.actual
    && Received(d) == d.t.fromHost[d.dBytes..]
    && KeptOf(k, d.t.kept, d.t.fromHost) && Flushing(d)
  }

  /** All that has been kept is on the medium but for the completion that is to be flushed next. */
  predicate Flushing(d: Dev)
    requires Wf(d)
  {
    var last := |d.t.kept| - |WholeBlocks(KindOf(d.cmnd), Received(d))|;
    && 0 <= last <= d.dBytes && d.t.kept[last..] == WholeBlocks(KindOf(d.cmnd), Received(d))
    && Landed(d.t.start, d.media, d.cbw, d.locked, d.lba, d.t.kept[..last])
  }

  /** `data` has been stored from block `first` on, and the next block goes to `lba`. */
  predicate StoredSoFar(start: Media, media: Media, k: Kind, first: nat, lba: nat, data: seq<byte>) {
    && first <= lba && |data| == Size(k, lba - first)
    && Size(k, first) + |data| <= |Space(start, k)| && media == Stored(start, k, first, data)
  }

  /** What of a write's data has reached the medium when the next block to store is `lba`. */
  predicate Landed(start: Media, media: Media, cbw: Cbw, locked: bool, lba: u32, data: seq<byte>) {
    && (locked ==> media == start)
    && (!locked && WriteFits(start, cbw) ==> StoredSoFar(start, media, KindOf(cbw[15]), Offset(cbw), lba, data))
  }

  predicate PhaseRxDataPrepare(d: Dev)
    requires Wf(d)
  {
    PhaseWrite(d) && d.dBytes == 0 && d.rx.give.actual == 0
  }

  predicate PhaseRxData(d: Dev)
    requires Wf(d)
  {
    && PhaseWrite(d) && d.dBytes < d.dSize
    && (d.rx.xfer.Some? ==> d.rx.xfer.value.len == WantBytes(KindOf(d.cmnd), d.dSize - d.dBytes))
  }

  predicate PhaseTxData(d: Dev)
    requires Wf(d)
  {
    && d.cmnd == d.cbw[15] && !IsRead(d.cmnd) && !IsWrite(d.cmnd) && !IsPlain(d.cmnd)
    && 0 < ReplySize(d.cmnd) == d.transferSize
    && d.tx.bufs[d.tx.num][..d.transferSize] == ReplyOf(d.cmnd, d.t.answer)
    && CacheEmpty(d) && TxFree(d)
    && d.media == d.t.start && d.t.toHost == [] && d.t.fromHost == []
  }

  /** The data phase is over and only the CSW is missing. */
  ghost predicate PhaseCsw(d: Dev)
    requires Wf(d)
  {
    && CacheEmpty(d)
    && if IsRead(d.cmnd) then PhaseRead(d) && d.uBytes == d.uSize && d.csw == Good(d.cbw)
       else
         && d.cmnd == d.cbw[15] && !IsWrite(d.cmnd)
         && (ReplySize(d.cmnd) > 0 || IsPlain(d.cmnd))
         && d.csw == ReportOf(d.cbw, d.t.answer, d.locked)
         && d.media == EffectOf(d.cbw, d.t.answer, d.t.start, d.locked)
         && d.t.fromHost == []
         && (d.tx.give.status != SendFinishedError ==> d.t.toHost + InFlight(d) == ReplyOf(d.cmnd, d.t.answer))
  }

  ghost predicate Phase(d: Dev)
    requires Wf(d)
  {
    match d.status
    case Idle => PhaseIdle(d)
    case Cmd => CacheEmpty(d) && TxFree(d)
    case TxData => PhaseTxData(d)
    case TxDataPrepare => PhaseTxDataPrepare(d)
    case RxDataPrepare => PhaseRxDataPrepare(d)
    case RxData => PhaseRxData(d)
    case Csw => PhaseCsw(d)
  }

  ghost predicate History(m0: Media, d: Dev) {
    var t := d.t;
    && |t.csws| + (if d.status == Idle then 0 else 1) == |t.cbws|
    && |t.log| + (if Pending(d) then 1 else 0) == |t.cbws|
    && (Pending(d) ==> t.cbws[|t.cbws| - 1] == d.cbw)
    && (forall i :: 0 <= i < |t.csws| ==> Answers(t.csws[i], t.cbws[i]))
    && (forall i :: 0 <= i < |t.log| ==> t.log[i].cbw == t.cbws[i])
    && (forall i :: 0 <= i < |t.log| && i < |t.csws| ==> t.log[i].csw == t.csws[i])
    && Explained(m0, t.log, if Pending(d) then t.start else d.media, d.locked)
    && (Pending(d) ==> SameSize(t.start, d.media))
  }

  ghost predicate Inv(m0: Media, d: Dev) {
    Wf(d) && Links(d) && Addressable(d.media) && Phase(d) && History(m0, d)
  }

  // ----- kept by every handler -----

  lemma InvWf(m0: Media, d: Dev)
    requires Inv(m0, d)
    ensures Wf(d)
  {
  }

  lemma ConfiguredInv(d: Dev, m: Media)
    requires Configured(d, m)
    ensures Inv(m, d)
  {
  }

  /** The command that PhaseCsw describes is correct once its CSW is the one rkusb_send_csw builds. */
  lemma CswCloses(d: Dev)
    requires Wf(d) && Links(d) && PhaseCsw(d) && TxFree(d) && SameSize(d.t.start, d.media)
    ensures Correct(Current(d, CswPacket(d.cbw, d.csw)), d.locked)
  {
    assert InFlight(d) == [] && d.t.toHost + InFlight(d) == d.t.toHost;
    PacketAnswers(d.cbw, d.csw);
    hide Windows;
    if IsRead(d.cmnd) {
      WindowsPrefix(d.media, d.cbw, d.t.fetched, Sectors(d.cbw));
    }
    hide Answers, CswPacket, Blocks;
  }

  lemma PacketAnswers(cbw: Cbw, info: CswInfo)
    ensures Answers(CswPacket(cbw, info), cbw)
  {
  }

  /** Queueing the CSW of a command that is otherwise complete. */
  lemma QueueCsw(m0: Media, d: Dev)
    requires Wf(d) && Links(d) && TxFree(d) && d.status != Idle && d.rx.xfer.None?
    requires History(m0, d)
    ensures var r := SendCsw(d);
            Links(r) && History(m0, r) && r.status == Idle && InFlight(r) == CswPacket(d.cbw, d.csw)
  {
    var packet := CswPacket(d.cbw, d.csw);
    assert Answers(packet, d.cbw);
  }

  lemma CswFrame(d: Dev)
    requires Wf(d) && PhaseCsw(d)
    ensures CacheEmpty(d)
  {
  }

  lemma SendCswInv(m0: Media, d: Dev)
    requires Inv(m0, d) && d.status == Csw
    ensures Inv(m0, SendCsw(d))
  {
    if TxFree(d) {
      assert PhaseCsw(d) && d.rx.xfer.None? && Pending(d) && SameSize(d.t.start, d.media);
      hide Correct, History, Links, PhaseCsw, CswPacket, SendCsw, Buffers;
      CswCloses(d);
      QueueCsw(m0, d);
      CswQueued(d);
      CswFrame(d);
    }
  }

  // ----- reads -----

  /** Between two commands' ends the history depends on few fields. */
  lemma HistoryKept(m0: Media, d: Dev, r: Dev)
    requires History(m0, d) && d.status != Idle && r.status != Idle
    requires r.t.cbws == d.t.cbws && r.t.csws == d.t.csws && r.t.log == d.t.log && r.t.start == d.t.start
    requires r.cbw == d.cbw && r.locked == d.locked && SameSize(d.media, r.media)
    ensures History(m0, r)
  {
  }

  lemma TxDataInv(m0: Media, d: Dev, b: Backend)
    requires Inv(m0, d) && d.status == TxData
    ensures Inv(m0, Respond(d, b))
  {
    HistoryKept(m0, d, Respond(d, b));
  }

  /** Counting in blocks and counting in bytes agree. */
  lemma BlockArithmetic(k: Kind, a: nat, n: nat)
    ensures Whole(k, Size(k, a)) == a
    ensures Size(k, a) + Size(k, n) == Size(k, a + n)
  {
  }

  /** What a storage read fetches for the next window keeps the windows exact. */
  lemma WindowsAppend(m: Media, cbw: Cbw, data: seq<byte>, junk: seq<byte>)
    requires Windows(m, cbw, data) && WindowStart(Whole(KindOf(cbw[15]), |data|)) && Addressable(m)
    ensures var k, done := KindOf(cbw[15]), Whole(KindOf(cbw[15]), |data|);
            Windows(m, cbw, data + StorageRead(m, k, U32(Offset(cbw) + done), WindowLen(cbw, done), junk))
  {
    hide WindowExact, StorageRead, WindowStart, Sectors, Offset, Addressable, Size, Whole;
    var k, done := KindOf(cbw[15]), Whole(KindOf(cbw[15]), |data|);
    var n := WindowLen(cbw, done);
    var all := data + StorageRead(m, k, U32(Offset(cbw) + done), n, junk);
    BlockArithmetic(k, done, n);
    BlockArithmetic(k, done + n, 0);
    LastExact(m, cbw, data, junk);
    forall at: nat | WindowStart(at) && at < done + n
      ensures WindowExact(m, cbw, all, at)
    {
      if at < done {
        assert WindowExact(m, cbw, data, at);
        WindowKept(m, cbw, data, all, at);
      } else {
        LastStart(done, at);
      }
    }
  }

  lemma LastExact(m: Media, cbw: Cbw, data: seq<byte>, junk: seq<byte>)
    requires Aligned(KindOf(cbw[15]), |data|) && Addressable(m)
    ensures var k, done := KindOf(cbw[15]), Whole(KindOf(cbw[15]), |data|);
            var all := data + StorageRead(m, k, U32(Offset(cbw) + done), WindowLen(cbw, done), junk);
            done <= Whole(k, |all|) && WindowExact(m, cbw, all, done)
  {
    var k, done := KindOf(cbw[15]), Whole(KindOf(cbw[15]), |data|);
    var n := WindowLen(cbw, done);
    hide Sectors, Offset;
    BlockArithmetic(k, done, n);
    BlockArithmetic(k, done + n, 0);
    if WindowOn(m, cbw, done) {
      NoWrap(m, k, Offset(cbw) + done, n);
    }
  }

  lemma LastStart(done: nat, at: nat)
    requires WindowStart(done) && WindowStart(at) && done <= at < done + BUFFER_BLOCK_MAX
    ensures at == done
  {
  }

  lemma WindowEnds(at: nat, end: nat)
    requires WindowStart(at) && WindowStart(end) && at < end
    ensures at + BUFFER_BLOCK_MAX <= end
  {
  }

  lemma WholeMono(k: Kind, a: nat, b: nat)
    requires a <= b
    ensures Whole(k, a) <= Whole(k, b)
  {
  }

  /** A complete window is the same in longer data. */
  lemma WindowKept(m: Media, cbw: Cbw, data: seq<byte>, all: seq<byte>, at: nat)
    requires data <= all && WindowStart(at) && at < Whole(KindOf(cbw[15]), |data|)
    requires WindowStart(Whole(KindOf(cbw[15]), |data|)) && Aligned(KindOf(cbw[15]), |all|)
    requires WindowExact(m, cbw, data, at)
    ensures at < Whole(KindOf(cbw[15]), |all|) && WindowExact(m, cbw, all, at)
  {
    var k := KindOf(cbw[15]);
    WindowEnds(at, Whole(k, |data|));
    WholeMono(k, |data|, |all|);
    hide WindowOn, Whole, Size, Sectors, Offset, Blocks, InRange, Aligned, WindowStart;
    assert Held(cbw, all, at) == Held(cbw, data, at) == WindowLen(cbw, at);
    if WindowOn(m, cbw, at) {
      var n := WindowLen(cbw, at);
      assert all[Size(k, at)..Size(k, at + n)] == data[Size(k, at)..Size(k, at + n)];
    }
  }

  /** A prefix of Blocks is Blocks, wherever it stands. */
  lemma PartExact(m: Media, k: Kind, first: nat, data: seq<byte>, at: nat, n: nat, more: nat, a: nat)
    requires n <= more && InRange(m, k, first, more) && at + n <= a
    requires Size(k, at + more) <= |data| && Size(k, a) <= |data|
    requires data[Size(k, at)..Size(k, at + more)] == Blocks(m, k, first, more)
    ensures data[..Size(k, a)][Size(k, at)..Size(k, at + n)] == Blocks(m, k, first, n)
  {
    BlocksJoin(m, k, first, n, more - n);
    BlockArithmetic(k, at, n);
    BlockArithmetic(k, at, more);
    BlockArithmetic(k, at + n, a - at - n);
    hide Size, Blocks, InRange;
    SliceOfPrefix(data, Size(k, a), Size(k, at), Size(k, at + n), Size(k, at + more));
  }

  /** The first `a` blocks of exact windows are exact windows. */
  lemma WindowsPrefix(m: Media, cbw: Cbw, data: seq<byte>, a: nat)
    requires Windows(m, cbw, data) && Size(KindOf(cbw[15]), a) <= |data|
    ensures Windows(m, cbw, data[..Size(KindOf(cbw[15]), a)])
  {
    var k := KindOf(cbw[15]);
    var part := data[..Size(k, a)];
    BlockArithmetic(k, a, 0);
    assert a <= Whole(k, |data|);
    forall at: nat | WindowStart(at) && at < a
      ensures WindowExact(m, cbw, part, at)
    {
      hide Windows, Size, Whole, WindowOn, Blocks, InRange, Aligned;
      assert WindowExact(m, cbw, data, at);
      if WindowOn(m, cbw, at) {
        PartExact(m, k, Offset(cbw) + at, data, at, Held(cbw, part, at), Held(cbw, data, at), a);
        PartRange(m, k, Offset(cbw) + at, at, Held(cbw, part, at), Held(cbw, data, at), a);
      }
    }
  }

  lemma PartRange(m: Media, k: Kind, first: nat, at: nat, n: nat, more: nat, a: nat)
    requires n <= more && InRange(m, k, first, more) && at + n <= a
    ensures InRange(m, k, first, n) && Size(k, at + n) <= Size(k, a)
  {
  }

  /** The current tx buffer holds the chunk that is to be sent next. */
  ghost predicate Loaded(d: Dev)
    requires Wf(d)
  {
    && PhaseRead(d)
    && d.uBytes < d.uSize
    && TxFree(d)
    && Prefetched(d)
    && d.uBytes + ChunkBytes(d) <= |d.t.fetched|
    && (ChunkBlocks(d) == BUFFER_BLOCK_MAX ==> |d.t.fetched| == d.uBytes + ChunkBytes(d))
    && d.tx.bufs[d.tx.num][..ChunkBytes(d)] == d.t.fetched[d.uBytes..d.uBytes + ChunkBytes(d)]
  }

  /** Sizes of the chunk in terms of the blocks left. */
  lemma ChunkSizes(d: Dev)
    requires Wf(d) && PhaseRead(d)
    ensures var k, left := KindOf(d.cmnd), Sectors(d.cbw) - DoneBlocks(d);
            && ChunkBlocks(d) == Min(left, BUFFER_BLOCK_MAX)
            && ChunkBytes(d) == Size(k, ChunkBlocks(d))
            && DoneBlocks(d) + ChunkBlocks(d) <= Sectors(d.cbw)
            && (d.uBytes < d.uSize <==> left > 0)
  {
  }

  /** What sending a chunk of n blocks after `done` blocks leaves in the counters. */
  lemma SendCounts(d: Dev, k: Kind, done: nat, n: nat)
    requires Wf(d) && Prefetched(d) && k == KindOf(d.cmnd)
    requires n == ChunkBlocks(d) && ChunkBytes(d) == Size(k, n) && d.uBytes == Size(k, done)
    ensures var r := SendChunk(d);
            && r.uBytes == Size(k, done + n) && DoneBlocks(r) == done + n
            && r.lba == U32(d.lba + n)
            && InFlight(r) == d.tx.bufs[d.tx.num][..ChunkBytes(d)]
  {
    BlockArithmetic(k, done, n);
    BlockArithmetic(k, done + n, 0);
  }

  /** Sending a loaded chunk extends the delivered prefix by exactly that chunk of what was fetched. */
  lemma SendLoaded(d: Dev)
    requires Wf(d) && Links(d) && Loaded(d)
    ensures var r := SendChunk(d);
            && Links(r) && PhaseRead(r)
            && DoneBlocks(r) == DoneBlocks(d) + ChunkBlocks(d)
            && r.tx.give.status == SendInProgress
            && r.t == d.t && r.uBytes == d.uBytes + ChunkBytes(d)
  {
    hide Windows;
    var r := SendChunk(d);
    var done, n := DoneBlocks(d), ChunkBlocks(d);
    ChunkSizes(d);
    SendCounts(d, KindOf(d.cmnd), done, n);
    SendPiped(d);
    ReadGoesOn(d, r, n);
    hide PhaseRead, Piped, DoneBlocks, ChunkBlocks, ChunkBytes, InFlight;
  }

  /** A read stays a read when its counters move on by n blocks. */
  lemma ReadGoesOn(d: Dev, r: Dev, n: nat)
    requires Wf(d) && Wf(r) && PhaseRead(d) && Piped(r) && DoneBlocks(d) + n <= Sectors(d.cbw)
    requires r == d.(tx := r.tx, pre := r.pre, uBytes := Size(KindOf(d.cmnd), DoneBlocks(d) + n), lba := U32(d.lba + n))
    ensures PhaseRead(r)
  {
    hide Windows, Piped, Sectors, Offset, Buffers;
    U32Add(Offset(d.cbw) + DoneBlocks(d), n);
    BlockArithmetic(KindOf(d.cmnd), DoneBlocks(d) + n, 0);
  }

  lemma SendPiped(d: Dev)
    requires Wf(d) && Links(d) && TxFree(d) && Prefetched(d) && Piped(d)
    requires d.uBytes + ChunkBytes(d) <= |d.t.fetched| && ChunkBytes(d) <= |d.tx.bufs[d.tx.num]|
    requires d.tx.bufs[d.tx.num][..ChunkBytes(d)] == d.t.fetched[d.uBytes..d.uBytes + ChunkBytes(d)]
    ensures Piped(SendChunk(d)) && SendChunk(d).uBytes == d.uBytes + ChunkBytes(d)
    ensures SendChunk(d) == d.(tx := SendChunk(d).tx, uBytes := d.uBytes + ChunkBytes(d),
                                 lba := U32(d.lba + ChunkBlocks(d)),
                               pre := d.pre.(blocks := d.pre.blocks - ChunkBlocks(d)))
  {
    var r := SendChunk(d);
    assert InFlight(d) == [];
    assert d.t.toHost == d.t.fetched[..d.uBytes];
    assert d.t.fetched[..r.uBytes] == d.t.fetched[..d.uBytes] + d.t.fetched[d.uBytes..r.uBytes];
    hide ChunkBlocks, ChunkBytes;
  }

  /** Every window of a read that fits lies on the medium. */
  lemma WindowFits(m: Media, cbw: Cbw, done: nat)
    requires ReadFits(m, cbw) && WindowStart(done) && done < Sectors(cbw)
    ensures WindowOn(m, cbw, done)
  {
    assert done + BUFFER_BLOCK_MAX <= (Sectors(cbw) + BUFFER_BLOCK_MAX - 1) / BUFFER_BLOCK_MAX * BUFFER_BLOCK_MAX;
  }

  lemma NoWrap(m: Media, k: Kind, first: nat, n: nat)
    requires Addressable(m) && InRange(m, k, first, n)
    ensures U32(first) == first
  {
  }

  /** A refill fills the free buffer and leaves the one in flight alone. */
  lemma FillFacts(d: Dev, data: seq<byte>, pre: PreRead)
    requires Wf(d) && Links(d) && |data| <= 528 * BUFFER_BLOCK_MAX
    ensures |data| <= |d.tx.bufs[d.tx.num]|
    ensures var r := FillTx(d, data).(pre := pre, t := d.t.(fetched := d.t.fetched + data));
            && r == d.(tx := r.tx, pre := pre, t := d.t.(fetched := d.t.fetched + data))
            && r.tx.num == d.tx.num && r.tx.give == d.tx.give && r.tx.xfer == d.tx.xfer
            && |data| <= |r.tx.bufs[r.tx.num]| && r.tx.bufs[r.tx.num][..|data|] == data
            && InFlight(r) == InFlight(d) && Links(r)
  {
  }

  /** The next window of a read. */
  function NextWindow(d: Dev, n: nat, b: Backend): (r: seq<byte>)
    ensures |r| == Size(KindOf(d.cmnd), n)
  {
    StorageRead(d.media, KindOf(d.cmnd), d.lba, n, b.junk)
  }

  /** A refill appends exactly the next window to what was fetched. */
  lemma RefillFetches(d: Dev, n: nat, b: Backend)
    requires Wf(d) && Links(d) && PhaseRead(d) && Addressable(d.media) && d.uBytes < d.uSize
    requires |d.t.fetched| == d.uBytes && WindowStart(DoneBlocks(d))
    requires n == WindowLen(d.cbw, DoneBlocks(d)) && (d.uBytes == 0 || n == BUFFER_BLOCK_MAX)
    ensures var r, data := Refill(d, n, b), NextWindow(d, n, b);
            && Links(r) && PhaseRead(r)
            && r == d.(tx := r.tx, pre := PreRead(Some(d.tx.num), d.lba, n), t := d.t.(fetched := d.t.fetched + data))
            && r.tx.num == d.tx.num && r.tx.give == d.tx.give
            && |data| <= |r.tx.bufs[r.tx.num]| && r.tx.bufs[r.tx.num][..|data|] == data
  {
    hide Windows, Buffers, Offset, Sectors, StorageRead, WindowStart;
    var data := NextWindow(d, n, b);
    assert d.t.fetched[..d.uBytes] == d.t.fetched;
    WindowsAppend(d.media, d.cbw, d.t.fetched, b.junk);
    hide Size, Whole, FillTx, Links, WindowLen;
    FillFacts(d, data, PreRead(Some(d.tx.num), d.lba, n));
    assert (d.t.fetched + data)[..d.uBytes] == d.t.fetched;
  }

  /** A read that has sent some chunks refills its window with a full one, or empties it after the last. */
  lemma RefillWindow(d: Dev, n: nat, b: Backend)
    requires Wf(d) && Links(d) && PhaseRead(d) && Addressable(d.media)
    requires n <= BUFFER_BLOCK_MAX && (d.uBytes < d.uSize ==> n == BUFFER_BLOCK_MAX && |d.t.fetched| == d.uBytes)
    requires d.uBytes < d.uSize ==> DoneBlocks(d) > 0 && WindowStart(DoneBlocks(d))
    ensures var r := Refill(d, n, b);
            && Links(r) && PhaseRead(r)
            && r.uBytes == d.uBytes && r.uSize == d.uSize && DoneBlocks(r) == DoneBlocks(d)
            && (if d.uBytes == d.uSize then CacheEmpty(r) && r.t == d.t
                else WindowReady(r) && r.t == d.t.(fetched := d.t.fetched + NextWindow(d, n, b)))
  {
    hide Windows, Buffers, Offset, Sectors, StorageRead;
    if d.uBytes < d.uSize {
      RefillFetches(d, n, b);
      hide Refill, Links, NextWindow;
    }
  }

  /** After a loaded chunk is sent, what a refill needs holds. */
  lemma SentReady(d: Dev)
    requires Wf(d) && Links(d) && Loaded(d) && Addressable(d.media)
    requires WindowStart(DoneBlocks(d))
    ensures var r, n := SendChunk(d), ChunkBlocks(d);
            && Links(r) && PhaseRead(r) && Addressable(r.media) && r.uBytes > 0 && r.t == d.t
            && DoneBlocks(r) == DoneBlocks(d) + n
            && n <= BUFFER_BLOCK_MAX
            && (r.uBytes < r.uSize ==>
                  n == BUFFER_BLOCK_MAX && |r.t.fetched| == r.uBytes && DoneBlocks(r) > 0 && WindowStart(DoneBlocks(r)))
  {
    LoadedFacts(d);
    hide PhaseRead, Loaded, Links, Addressable, Sectors, SendChunk, ChunkBytes, ChunkBlocks, DoneBlocks;
    ChunkSizes(d);
    SendLoaded(d);
    ChunkSizes(SendChunk(d));
    if ChunkBlocks(d) == BUFFER_BLOCK_MAX {
      StartNext(DoneBlocks(d), ChunkBlocks(d));
    }
  }

  lemma LoadedFacts(d: Dev)
    requires Wf(d) && Loaded(d)
    ensures PhaseRead(d) && d.uBytes < d.uSize && ChunkBytes(d) > 0
    ensures ChunkBlocks(d) == BUFFER_BLOCK_MAX ==> |d.t.fetched| == d.uBytes + ChunkBytes(d)
    ensures SendChunk(d).uSize == d.uSize && SendChunk(d).media == d.media && SendChunk(d).cbw == d.cbw
  {
  }

  lemma StartNext(done: nat, n: nat)
    requires WindowStart(done) && n == BUFFER_BLOCK_MAX
    ensures WindowStart(done + n)
  {
  }

  /** A pass over a loaded chunk sends it and prepares the next window. */
  lemma LoadedPass(d: Dev, b: Backend)
    requires Wf(d) && Links(d) && Loaded(d) && Addressable(d.media)
    requires WindowStart(DoneBlocks(d))
    ensures var r := TxPass(d, b);
            && Links(r) && PhaseRead(r)
            && DoneBlocks(r) == DoneBlocks(d) + ChunkBlocks(d)
            && r.uBytes > 0
            && (if r.uBytes == r.uSize then CacheEmpty(r) && r.t == d.t
                else WindowReady(r) &&
                     r.t == d.t.(fetched := d.t.fetched + NextWindow(SendChunk(d), ChunkBlocks(d), b)))
  {
    hide Links, Loaded, PhaseRead, WindowReady, CacheEmpty, SendChunk, Refill, DoneBlocks, ChunkBlocks, Addressable;
    hide NextWindow, WindowStart;
    SentReady(d);
    RefillWindow(SendChunk(d), ChunkBlocks(d), b);
  }

  /** The first pass of a read finds the window empty and fills it; nothing is sent yet. */
  lemma FirstPass(d: Dev, b: Backend)
    requires Wf(d) && Links(d) && PhaseTxDataPrepare(d) && Addressable(d.media)
    requires d.uBytes == 0 < d.uSize
    ensures var r := TxPass(d, b);
            && Links(r) && Loaded(r) && r.uBytes == 0 && ChunkBlocks(r) == ChunkBlocks(d)
            && WindowStart(DoneBlocks(r)) && r.t == d.t.(fetched := NextWindow(d, ChunkBlocks(d), b))
  {
    hide Windows, Buffers, Offset, Sectors, StorageRead;
    ChunkSizes(d);
    assert SendChunk(d) == d && DoneBlocks(d) == 0;
    hide SendChunk, Links;
    RefillFetches(d, ChunkBlocks(d), b);
    hide Refill, NextWindow;
  }

  /** rkusb_handle_datatx after the pass that sent the chunk. */
  function AfterPass(e: Dev): (r: Dev)
    requires Wf(e)
    ensures Wf(r)
  {
    if e.uBytes != 0 && e.uSize == e.uBytes then e.(csw := Good(e.cbw), status := Csw) else e
  }

  ghost predicate CallDone(r: Dev)
    requires Wf(r)
  {
    && Links(r)
    && r.uBytes > 0
    && if r.uBytes == r.uSize then r.status == Csw && PhaseCsw(r)
       else r.status == TxDataPrepare && PhaseTxDataPrepare(r)
  }

  lemma AfterPassDone(e: Dev)
    requires Wf(e) && Links(e) && PhaseRead(e) && e.uBytes > 0 && e.status == TxDataPrepare
    requires if e.uBytes == e.uSize then CacheEmpty(e) else WindowReady(e)
    ensures CallDone(AfterPass(e))
  {
    hide Windows;
    assert InFlight(AfterPass(e)) == InFlight(e);
  }

  /** A prefetched window passes the send guard and holds the next chunk. */
  lemma WindowHolds(d: Dev)
    requires Wf(d) && PhaseTxDataPrepare(d) && 0 < d.uBytes
    ensures d.pre == PreRead(Some(d.tx.num), d.lba, BUFFER_BLOCK_MAX) && Prefetched(d)
    ensures d.lba == U32(Offset(d.cbw) + DoneBlocks(d)) && DoneBlocks(d) < Sectors(d.cbw)
    ensures ChunkBytes(d) <= |d.tx.bufs[d.tx.num]| && d.uBytes + ChunkBytes(d) <= |d.t.fetched|
    ensures d.tx.bufs[d.tx.num][..ChunkBytes(d)] == d.t.fetched[d.uBytes..d.uBytes + ChunkBytes(d)]
    ensures ChunkBlocks(d) == BUFFER_BLOCK_MAX ==> |d.t.fetched| == d.uBytes + ChunkBytes(d)
  {
    hide Windows, Offset;
    ChunkSizes(d);
    var window := d.tx.bufs[d.tx.num][..Size(KindOf(d.cbw[15]), BUFFER_BLOCK_MAX)];
    assert window[..ChunkBytes(d)] == d.tx.bufs[d.tx.num][..ChunkBytes(d)];
  }

  lemma WindowLoaded(d: Dev)
    requires Wf(d) && PhaseTxDataPrepare(d) && TxFree(d) && 0 < d.uBytes < d.uSize
    ensures Loaded(d) && WindowStart(DoneBlocks(d))
  {
    hide Windows, Offset, Sectors, ChunkBlocks, ChunkBytes;
    WindowHolds(d);
  }

  /** Each call of rkusb_handle_datatx on a read with blocks left sends exactly the next chunk,
      and leaves either the completed read or a valid prefetched window. */
  lemma ReadCall(d: Dev, b: Backend)
    requires Wf(d) && Links(d) && PhaseTxDataPrepare(d) && TxFree(d) && Addressable(d.media)
    requires d.status == TxDataPrepare && d.uBytes < d.uSize
    ensures var r := HandleDataTx(d, b);
            && CallDone(r)
            && DoneBlocks(r) == DoneBlocks(d) + Min(Sectors(d.cbw) - DoneBlocks(d), BUFFER_BLOCK_MAX)
  {
    hide Windows, Links, WindowReady, CallDone, WindowStart, NextWindow, TxPass, CacheEmpty;
    ChunkSizes(d);
    PassFrame(d, b);
    if d.uBytes == 0 {
      FirstPass(d, b);
      PassFrame(TxPass(d, b), b);
      hide PhaseRead, Loaded, ChunkBlocks;
      LoadedPass(TxPass(d, b), b);
      AfterPassDone(TxPass(TxPass(d, b), b));
    } else {
      WindowLoaded(d);
      hide PhaseRead, Loaded, ChunkBlocks;
      LoadedPass(d, b);
      AfterPassDone(TxPass(d, b));
    }
  }

  /** The fields no part of rkusb_handle_datatx touches. */
  predicate SameBut(d: Dev, r: Dev) {
    && r.t == d.t.(fetched := r.t.fetched) && r.cbw == d.cbw && r.cmnd == d.cmnd && r.locked == d.locked
    && r.media == d.media && r.rx == d.rx && r.uSize == d.uSize
  }

  lemma PassFrame(d: Dev, b: Backend)
    requires Wf(d)
    ensures SameBut(d, TxPass(d, b)) && TxPass(d, b).status == d.status
  {
    hide ChunkBlocks, ChunkBytes, StorageRead, Size;
    assert SameBut(d, SendChunk(d));
  }

  lemma ReadFrame(d: Dev, b: Backend)
    requires Wf(d)
    ensures SameBut(d, HandleDataTx(d, b))
  {
    hide TxPass;
    PassFrame(d, b);
    PassFrame(TxPass(d, b), b);
  }

  /** With nothing to send a pass changes nothing, so the loop of rkusb_handle_datatx never ends. */
  lemma SpinningPass(d: Dev, b: Backend)
    requires Wf(d) && d.uSize == 0 && CacheEmpty(d)
    ensures TxPass(d, b) == d
  {
  }

  lemma TxDataPrepareInv(m0: Media, d: Dev, b: Backend)
    requires Inv(m0, d) && d.status == TxDataPrepare
    ensures Inv(m0, Respond(d, b))
  {
    hide Windows, History, Links, PhaseRead, WindowReady, TxPass;
    var r := Respond(d, b);
    if d.uSize == 0 {
      SpinningPass(d, b);
    } else if TxFree(d) {
      assert d.uBytes < d.uSize;
      ReadCall(d, b);
      ReadFrame(d, b);
      HistoryKept(m0, d, r);
    }
  }

  // ----- writes -----

  /** The next block to store lies on the medium, and so do the blocks that go there. */
  lemma NextOnMedium(m: Media, k: Kind, first: u32, f: nat, n: nat, sectors: nat)
    requires Addressable(m) && InRange(m, k, first, sectors) && f + n <= sectors
    ensures InRange(m, k, first + f, n) && U32(first + f + n) == first + f + n
    ensures Size(k, first + f) + Size(k, n) <= |Space(m, k)|
    ensures Size(k, first) + Size(k, f + n) <= |Space(m, k)| && Size(k, f) + Size(k, n) == Size(k, f + n)
  {
  }

  /** Storing n more blocks. */
  lemma StoreNext(start: Media, media: Media, k: Kind, first: nat, f: nat, n: nat, data: seq<byte>, more: seq<byte>)
    requires StoredSoFar(start, media, k, first, first + f, data) && |more| == Size(k, n)
    requires Size(k, first) + Size(k, f + n) <= |Space(start, k)| && Size(k, f) + Size(k, n) == Size(k, f + n)
    ensures Size(k, first + f) + |more| <= |Space(media, k)|
    ensures StoredSoFar(start, Stored(media, k, first + f, more), k, first, first + f + n, data + more)
  {
    BlockArithmetic(k, first, f);
    hide Size, Stored;
    SpaceKept(start, k, first, data);
    StoredJoin(start, k, first, f, data, more);
  }

  lemma SpaceKept(m: Media, k: Kind, first: nat, data: seq<byte>)
    requires Size(k, first) + |data| <= |Space(m, k)|
    ensures |Space(Stored(m, k, first, data), k)| == |Space(m, k)|
  {
  }

  /** Storing what a completion brought keeps Landed, whatever the back end does with requests off the medium. */
  lemma FlushLands(d: Dev, data: seq<byte>, done: seq<byte>, b: Backend)
    requires Wf(d) && d.cmnd == d.cbw[15] && IsWrite(d.cmnd) && Addressable(d.t.start)
    requires |done| + |data| <= Size(KindOf(d.cmnd), Sectors(d.cbw))
    requires Landed(d.t.start, d.media, d.cbw, d.locked, d.lba, done)
    ensures var r := Flush(d, data, b);
            Landed(d.t.start, r.media, d.cbw, d.locked, r.lba, done + WholeBlocks(KindOf(d.cmnd), data))
  {
    hide StoredSoFar, WriteFits, Offset, Sectors, StorageWrite, Size;
    if !d.locked && WriteFits(d.t.start, d.cbw) {
      FlushStores(d, data, done, b);
    }
  }

  lemma FlushStores(d: Dev, data: seq<byte>, done: seq<byte>, b: Backend)
    requires Wf(d) && d.cmnd == d.cbw[15] && IsWrite(d.cmnd) && Addressable(d.t.start)
    requires |done| + |data| <= Size(KindOf(d.cmnd), Sectors(d.cbw))
    requires !d.locked && WriteFits(d.t.start, d.cbw)
    requires StoredSoFar(d.t.start, d.media, KindOf(d.cmnd), Offset(d.cbw), d.lba, done)
    ensures var k, r := KindOf(d.cmnd), Flush(d, data, b);
            StoredSoFar(d.t.start, r.media, k, Offset(d.cbw), r.lba, done + WholeBlocks(k, data))
  {
    var k, first := KindOf(d.cmnd), Offset(d.cbw);
    var f, n := d.lba - first, Whole(k, |data|);
    FlushNumbers(k, f, |done|, |data|, Sectors(d.cbw));
    hide Offset, Sectors, Size, Whole, Addressable, InRange, Space, Buffers, Stored;
    NextOnMedium(d.t.start, k, first, f, n, Sectors(d.cbw));
    if n > 0 {
      StoreNext(d.t.start, d.media, k, first, f, n, done, WholeBlocks(k, data));
    } else {
      assert WholeBlocks(k, data) == [] && done + [] == done;
    }
  }

  lemma FlushNumbers(k: Kind, f: nat, done: nat, a: nat, sectors: nat)
    requires done == Size(k, f) && done + a <= Size(k, sectors)
    ensures f + Whole(k, a) <= sectors && Size(k, Whole(k, a)) <= a && (Whole(k, a) == 0 ==> Size(k, Whole(k, a)) == 0)
  {
  }

  /** A write of which all bytes have been received and flushed is complete. */
  lemma WriteCloses(e: Entry, locked: bool, lba: u32)
    requires e.toHost == [] && |e.fromHost| == Size(KindOf(e.cbw[15]), Sectors(e.cbw))
    requires KeptOf(KindOf(e.cbw[15]), e.kept, e.fromHost)
    requires Landed(e.before, e.after, e.cbw, locked, lba, e.kept)
    ensures WriteDone(e, locked)
  {
    hide KeptOf, Stored;
  }

  /** rkusb_handle_datarx up to the point where the received data is flushed. */
  function Counted(d: Dev): (r: Dev)
    requires Wf(d)
    ensures Wf(r)
  {
    d.(dBytes := d.dBytes + |Received(d)|)
  }

  /** The fields a write's flush depends on, untouched by posting the next request or queueing the CSW. */
  lemma AskFrame(d: Dev)
    requires Wf(d)
    ensures var r := AskOrFinish(d);
            && r.cbw == d.cbw && r.cmnd == d.cmnd && r.media == d.media && r.lba == d.lba && r.locked == d.locked
            && r.dBytes == d.dBytes && r.dSize == d.dSize && r.pre == d.pre
            && r.t == d.t.(csws := r.t.csws)
  {
    hide Size, Whole, CswPacket, Overlay;
  }

  lemma FlushSize(d: Dev, data: seq<byte>, b: Backend)
    requires Wf(d)
    ensures var r := Flush(d, data, b);
            SameSize(d.media, r.media) && r == d.(media := r.media, lba := r.lba)
  {
  }

  /** The flush after the next request was posted, or after the CSW was queued, keeps Landed. */
  lemma DataRxLands(d: Dev, b: Backend)
    requires Wf(d) && PhaseWrite(d) && Addressable(d.t.start)
    ensures var r := HandleDataRx(d, b);
            && SameSize(d.media, r.media)
            && r == AskOrFinish(Counted(d)).(media := r.media, lba := r.lba)
            && Landed(d.t.start, r.media, d.cbw, d.locked, r.lba, d.t.kept)
  {
    hide Landed, Sectors, Aligned, AskOrFinish, Flush, Buffers, WholeBlocks, KeptOf;
    var data, more := Received(d), WholeBlocks(KindOf(d.cmnd), Received(d));
    var done := d.t.kept[..|d.t.kept| - |more|];
    assert done + more == d.t.kept;
    AskFrame(Counted(d));
    FlushLands(AskOrFinish(Counted(d)), data, done, b);
    FlushSize(AskOrFinish(Counted(d)), data, b);
  }

  lemma StartAddressable(m0: Media, d: Dev)
    requires Inv(m0, d) && Pending(d)
    ensures Addressable(d.t.start) && SameSize(d.t.start, d.media)
  {
  }

  /** The history of a pending command does not depend on what is flushed meanwhile. */
  lemma HistoryFlushed(m0: Media, d: Dev, media: Media, lba: u32)
    requires History(m0, d) && Pending(d) && SameSize(d.media, media)
    ensures History(m0, d.(media := media, lba := lba))
  {
  }

  /** More data to come: the next request is posted in the buffer that is not being flushed. */
  lemma AskInv(m0: Media, d: Dev, b: Backend)
    requires Inv(m0, d) && d.dBytes + d.rx.give.actual < d.dSize
    requires d.status == RxDataPrepare || (d.status == RxData && d.rx.give.status == RecvOk)
    ensures Inv(m0, HandleDataRx(d, b))
  {
    hide Landed, Sectors, History, Aligned, Whole, Size, KeptOf, Flushing;
    var r := HandleDataRx(d, b);
    StartAddressable(m0, d);
    DataRxLands(d, b);
    hide Flush, HandleDataRx;
    HistoryKept(m0, d, r);
    AskedPhase(d, r);
    hide PhaseRxData, PhaseWrite, Links, Wf;
  }

  lemma AskedPhase(d: Dev, r: Dev)
    requires Wf(d) && Links(d) && PhaseWrite(d) && d.rx.xfer.None? && Wf(r)
    requires d.dBytes + |Received(d)| < d.dSize
    requires r == AskOrFinish(Counted(d)).(media := r.media, lba := r.lba)
    requires Landed(d.t.start, r.media, d.cbw, d.locked, r.lba, d.t.kept)
    ensures Links(r) && PhaseRxData(r) && r.status == RxData
  {
    hide Landed, Sectors, Aligned, Size, Buffers;
    assert Received(r) == [] && WholeBlocks(KindOf(d.cmnd), []) == [];
    assert r.t.kept[..|r.t.kept| - 0] == r.t.kept;
    hide KeptOf, WholeBlocks, WantBytes;
  }

  /** rkusb_send_csw on a free bulk-in endpoint. */
  lemma CswQueued(d: Dev)
    requires Wf(d) && TxFree(d)
    ensures var r := SendCsw(d);
            && r.status == Idle && r.tx.give.status == SendInProgress && r.rx.give.actual == 0
            && r.rx.xfer == Some(Transfer(d.rx.num, CBW_LEN))
            && InFlight(r) == CswPacket(d.cbw, d.csw)
            && r == d.(status := Idle, rx := r.rx, tx := r.tx, t := d.t.(csws := d.t.csws + [CswPacket(d.cbw, d.csw)]))
  {
  }

  /** The entry of a write of which the last byte has been received. */
  lemma FinishCorrect(d: Dev, r: Dev, packet: seq<byte>)
    requires Wf(d) && PhaseWrite(d) && d.dBytes + |Received(d)| == d.dSize
    requires packet == CswPacket(d.cbw, Good(d.cbw))
    requires r == Counted(d).(status := r.status, csw := r.csw, rx := r.rx, tx := r.tx, media := r.media,
                              lba := r.lba, t := r.t)
    requires r.t == Counted(d).t.(csws := r.t.csws) && SameSize(d.t.start, r.media)
    requires Landed(d.t.start, r.media, d.cbw, d.locked, r.lba, d.t.kept)
    ensures Correct(Current(r, packet), r.locked)
  {
    hide Landed, Sectors, Aligned, Whole, Size, CswPacket, WriteDone;
    PacketAnswers(d.cbw, Good(d.cbw));
    WriteCloses(Current(r, packet), r.locked, r.lba);
  }

  /** In status IDLE with the CSW just queued. */
  lemma QueuedPhase(x: Dev, r: Dev, packet: seq<byte>)
    requires Wf(x) && Links(x) && CacheEmpty(x) && x.status == Idle && x.tx.give.status == SendInProgress
    requires x.rx.give.actual == 0 && x.rx.xfer.Some? && x.rx.xfer.value.len == CBW_LEN && InFlight(x) == packet
    requires |x.t.csws| > 0 && x.t.csws[|x.t.csws| - 1] == packet
    requires r == x.(media := r.media, lba := r.lba) && Correct(Current(r, packet), r.locked)
    ensures Wf(r) && Links(r) && Phase(r)
  {
    hide Correct, Buffers;
  }

  /** What of a write the last step needs. */
  lemma FinishFacts(m0: Media, d: Dev)
    requires Inv(m0, d) && d.dBytes + d.rx.give.actual >= d.dSize
    requires d.status == RxDataPrepare || (d.status == RxData && d.rx.give.status == RecvOk)
    ensures Wf(d) && Links(d) && History(m0, d) && PhaseWrite(d) && Addressable(d.media)
    ensures CacheEmpty(d) && TxFree(d) && d.rx.xfer.None? && d.dBytes + |Received(d)| == d.dSize
  {
    hide History, Flushing, KeptOf, Sectors;
  }

  /** All data received: the CSW is queued, then the last chunk is flushed. */
  lemma FinishInv(m0: Media, d: Dev, b: Backend)
    requires Inv(m0, d) && d.dBytes + d.rx.give.actual >= d.dSize
    requires d.status == RxDataPrepare || (d.status == RxData && d.rx.give.status == RecvOk)
    ensures Inv(m0, HandleDataRx(d, b))
  {
    FinishFacts(m0, d);
    StartAddressable(m0, d);
    hide Landed, PhaseWrite, History, CswPacket, Correct, Buffers, Phase, Addressable, Received, Links, Wf, Counted;
    hide HandleDataRx, AskOrFinish, CacheEmpty, Good;
    var packet, x, r := CswPacket(d.cbw, Good(d.cbw)), AskOrFinish(Counted(d)), HandleDataRx(d, b);
    DataRxLands(d, b);
    FinishQueues(m0, d);
    HistoryFlushed(m0, x, r.media, r.lba);
    FinishCorrect(d, r, packet);
    QueuedPhase(x, r, packet);
    KeepsAddresses(d.media, r.media);
  }

  /** What the first half of rkusb_handle_datarx leaves then. */
  lemma FinishQueues(m0: Media, d: Dev)
    requires Wf(d) && Links(d) && History(m0, d) && CacheEmpty(d) && TxFree(d) && d.rx.xfer.None?
    requires d.dBytes + |Received(d)| >= d.dSize && (d.status == RxData || d.status == RxDataPrepare)
    ensures var x, c, packet := AskOrFinish(Counted(d)), Counted(d), CswPacket(d.cbw, Good(d.cbw));
            && x == c.(status := x.status, csw := x.csw, rx := x.rx, tx := x.tx, t := x.t)
            && x.t == c.t.(csws := x.t.csws) && x.media == d.media
            && Links(x) && History(m0, x) && Pending(x) && CacheEmpty(x)
            && x.status == Idle && x.tx.give.status == SendInProgress && x.rx.give.actual == 0
            && x.rx.xfer.Some? && x.rx.xfer.value.len == CBW_LEN && InFlight(x) == packet
            && |x.t.csws| > 0 && x.t.csws[|x.t.csws| - 1] == packet
  {
    hide History, CswPacket, Buffers, Received, Links;
    var c := Counted(d).(csw := Good(d.cbw));
    assert Links(c) by {
      SameLinks(d, c);
    }
    HistoryKept(m0, d, c);
    QueueCsw(m0, c);
    CswQueued(c);
    hide SendCsw, InFlight;
  }

  lemma SameLinks(d: Dev, c: Dev)
    requires Wf(d) && Links(d) && Wf(c) && c.tx == d.tx && c.rx == d.rx && c.status == d.status
    ensures Links(c)
  {
  }

  lemma KeepsAddresses(m: Media, m': Media)
    requires Addressable(m) && SameSize(m, m')
    ensures Addressable(m')
  {
  }

  lemma RespondInv(m0: Media, d: Dev, b: Backend)
    requires Inv(m0, d)
    ensures Inv(m0, Respond(d, b))
  {
    hide HandleDataRx, HandleDataTx, Links, History;
    if d.status == TxData {
      TxDataInv(m0, d, b);
    } else if d.status == TxDataPrepare {
      TxDataPrepareInv(m0, d, b);
    } else if d.status == RxDataPrepare || (d.status == RxData && d.rx.give.status == RecvOk) {
      if d.dBytes + d.rx.give.actual < d.dSize {
        AskInv(m0, d, b);
      } else {
        FinishInv(m0, d, b);
      }
    }
  }

  // ----- dispatch -----

  /** A taken command: nothing is in flight in either direction and nothing is prefetched. */
  predicate Fresh(d: Dev)
    requires Wf(d)
  {
    && d.status == Cmd && d.cmnd == d.cbw[15]
    && CacheEmpty(d) && TxFree(d) && d.tx.xfer.None? && d.rx.xfer.None?
    && d.t.start == d.media && d.t.fetched == [] && d.t.toHost == [] && d.t.fromHost == [] && d.t.kept == []
  }

  lemma TakenInv(m0: Media, d: Dev, b: Backend)
    requires Inv(m0, d) && d.status == Idle && d.rx.give.actual > 0
    ensures Inv(m0, Taken(d, b)) && Fresh(Taken(d, b))
  {
  }

  lemma ReplyInv(m0: Media, d: Dev, data: seq<byte>, size: nat)
    requires Inv(m0, d) && Fresh(d) && 0 < size <= 64
    requires size == ReplySize(d.cmnd) && Exactly(data, size) == ReplyOf(d.cmnd, d.t.answer)
    ensures Inv(m0, Reply(d, data, size))
  {
    FillFacts(d, Exactly(data, size), d.pre);
    hide Exactly, Buffers, Overlay;
    HistoryKept(m0, d, Reply(d, data, size));
    hide History;
  }

  lemma StartReadInv(m0: Media, d: Dev)
    requires Inv(m0, d) && Fresh(d) && IsRead(d.cmnd)
    ensures Inv(m0, StartRead(d)) && StartRead(d).status == TxDataPrepare
  {
    hide Buffers, Offset, Sectors;
    HistoryKept(m0, d, StartRead(d));
    hide History;
    assert d.t.toHost + InFlight(d) == [] == d.t.fetched[..0];
    NoWindows(d.media, d.cbw);
    hide Windows;
  }

  lemma NoWindows(m: Media, cbw: Cbw)
    ensures Windows(m, cbw, [])
  {
  }

  lemma NothingLanded(m: Media, cbw: Cbw, locked: bool)
    ensures Landed(m, m, cbw, locked, Offset(cbw), [])
  {
    if WriteFits(m, cbw) {
      var k, first := KindOf(cbw[15]), Offset(cbw);
      assert Overlay(Space(m, k), Size(k, first), []) == Space(m, k);
    }
  }

  lemma StartWriteInv(m0: Media, d: Dev)
    requires Inv(m0, d) && Fresh(d) && IsWrite(d.cmnd)
    ensures Inv(m0, StartWrite(d))
  {
    hide Buffers, Sectors, Landed;
    HistoryKept(m0, d, StartWrite(d));
    hide History;
    NothingLanded(d.media, d.cbw, d.locked);
  }

  lemma PlainInv(m0: Media, d: Dev, r: Dev)
    requires Inv(m0, d) && Fresh(d) && IsPlain(d.cmnd)
    requires r == d.(status := Csw, csw := r.csw, media := r.media) && SameSize(d.media, r.media)
    requires r.media == EffectOf(d.cbw, d.t.answer, d.media, d.locked) && r.csw == ReportOf(d.cbw, d.t.answer, d.locked)
    ensures Inv(m0, r)
  {
    hide Buffers;
    HistoryKept(m0, d, r);
    hide History;
  }

  lemma PlainDispatch(d: Dev, b: Backend)
    requires Wf(d) && d.rx.give.actual > 0 && IsPlain(Taken(d, b).cmnd)
    ensures var e, r := Taken(d, b), Dispatch(d, b);
            && r == e.(status := Csw, csw := r.csw, media := r.media) && SameSize(e.media, r.media)
            && r.media == EffectOf(e.cbw, e.t.answer, e.media, e.locked)
            && r.csw == ReportOf(e.cbw, e.t.answer, e.locked)
  {
    hide Exactly, Left, Wf;
  }

  lemma DispatchInv(m0: Media, d: Dev, b: Backend)
    requires Inv(m0, d) && d.status == Idle && d.rx.give.actual > 0
    ensures Inv(m0, Dispatch(d, b))
  {
    TakenInv(m0, d, b);
    var e := Taken(d, b);
    hide Inv, Fresh, StartRead, StartWrite, Reply, Exactly, Left;
    if IsRead(e.cmnd) {
      StartReadInv(m0, e);
    } else if IsWrite(e.cmnd) {
      StartWriteInv(m0, e);
    } else if e.cmnd == READ_FLASH_ID {
      ReplyInv(m0, e, b.id, 5);
    } else if e.cmnd == TEST_BAD_BLOCK {
      ReplyInv(m0, e, Zeros(64), 64);
    } else if e.cmnd == READ_FLASH_INFO {
      ReplyInv(m0, e, b.info, 11);
    } else if e.cmnd == GET_CHIP_VER {
      ReplyInv(m0, e, b.chip, 16);
    } else if IsPlain(e.cmnd) {
      PlainDispatch(d, b);
      PlainInv(m0, e, Dispatch(d, b));
    }
  }

  lemma PollInv(m0: Media, d: Dev, b: Backend)
    requires Inv(m0, d)
    ensures Inv(m0, Poll(d, b))
  {
    var e := if d.status == Idle && d.rx.give.actual > 0 then Dispatch(d, b) else d;
    hide Dispatch, Respond, SendCsw, Phase, Links, History;
    if d.status == Idle && d.rx.give.actual > 0 {
      DispatchInv(m0, d, b);
    }
    RespondInv(m0, e, b);
    if Respond(e, b).status == Csw {
      SendCswInv(m0, Respond(e, b));
    }
  }

  // ----- completions -----

  /** A finished data transfer moves from "in flight" to "delivered". */
  lemma TxDoneInv(m0: Media, d: Dev)
    requires Inv(m0, d) && d.tx.xfer.Some? && d.status != Idle
    ensures Inv(m0, CompleteTx(d))
  {
    hide Windows;
    var r := CompleteTx(d);
    assert r.t.toHost + InFlight(r) == d.t.toHost + InFlight(d);
    HistoryKept(m0, d, r);
    hide History;
  }

  lemma ExplainedMore(m0: Media, log: seq<Entry>, e: Entry, locked: bool)
    requires Explained(m0, log, e.before, locked) && Correct(e, locked)
    ensures Explained(m0, log + [e], e.after, locked)
  {
    hide Correct;
    assert (log + [e])[..|log|] == log;
  }

  /** A finished CSW closes the command's log entry. */
  lemma CswDoneInv(m0: Media, d: Dev)
    requires Inv(m0, d) && d.tx.xfer.Some? && d.status == Idle
    ensures Inv(m0, CompleteTx(d))
  {
    hide Correct, Explained, Answers, Buffers, Addressable;
    ExplainedMore(m0, d.t.log, Current(d, InFlight(d)), d.locked);
  }

  /** A command block arrives: the host has seen the previous CSW. */
  lemma CbwInv(m0: Media, d: Dev, data: seq<byte>)
    requires Inv(m0, d) && Enabled(d, RxDone(data)) && d.status == Idle
    ensures Inv(m0, CompleteRx(d, data))
  {
    hide Explained, Correct, Overlay;
  }

  /** Write data arrives in the posted buffer. */
  lemma DataInv(m0: Media, d: Dev, data: seq<byte>)
    requires Inv(m0, d) && Enabled(d, RxDone(data)) && d.status == RxData
    ensures Inv(m0, CompleteRx(d, data))
  {
    hide Sectors, Offset;
    var r := CompleteRx(d, data);
    HistoryKept(m0, d, r);
    hide History;
    assert Received(r) == data && Received(d) == [];
    KeptMore(KindOf(d.cmnd), d.t.kept, d.t.fromHost, data);
    var more := WholeBlocks(KindOf(d.cmnd), data);
    assert d.t.kept[..|d.t.kept| - 0] == (d.t.kept + more)[..|d.t.kept + more| - |more|];
    hide Landed, Whole, Size, Overlay, WholeBlocks, KeptOf;
  }

  lemma KeptMore(k: Kind, kept: seq<byte>, from: seq<byte>, data: seq<byte>)
    requires KeptOf(k, kept, from)
    ensures KeptOf(k, kept + WholeBlocks(k, data), from + data)
  {
    hide WholeBlocks;
  }

  lemma TxFailedInv(m0: Media, d: Dev)
    requires Inv(m0, d) && d.tx.xfer.Some?
    ensures Inv(m0, Step(d, TxFailed))
  {
    hide Explained, Correct, Windows;
  }

  lemma RxFailedInv(m0: Media, d: Dev)
    requires Inv(m0, d) && d.rx.xfer.Some?
    ensures Inv(m0, Step(d, RxFailed))
  {
    hide Explained, Correct, Landed;
  }

  lemma StepInv(m0: Media, d: Dev, ev: Event)
    requires Inv(m0, d)
    ensures Inv(m0, Step(d, ev))
  {
    if Enabled(d, ev) {
      hide Poll, CompleteTx, CompleteRx, Phase, History;
      match ev
      case Polled(b) => PollInv(m0, d, b);
      case TxDone => if d.status == Idle { CswDoneInv(m0, d); } else { TxDoneInv(m0, d); }
      case TxFailed => TxFailedInv(m0, d);
      case RxDone(data) => if d.status == Idle { CbwInv(m0, d, data); } else { DataInv(m0, d, data); }
      case RxFailed => RxFailedInv(m0, d);
    }
  }

  /** Every state of every run satisfies the invariant. */
  lemma {:induction false} RunInv(m0: Media, d: Dev, evs: seq<Event>)
    requires Configured(d, m0)
    ensures Inv(m0, Run(d, evs))
    decreases |evs|
  {
    if evs == [] {
      ConfiguredInv(d, m0);
    } else {
      hide Step;
      RunInv(m0, d, evs[..|evs| - 1]);
      StepInv(m0, Run(d, evs[..|evs| - 1]), evs[|evs| - 1]);
    }
  }
}
