/** Writes of the RockUSB engine over whole runs: exactly when they land, and what single short completions do. */
module RockusbWrites {
  import opened Bytes
  import opened BlockStore
  import opened RockusbModel
  import opened RockusbInvariant
  import opened RockusbTheorems
  import opened RockusbProgress
  import opened RockusbReads

  // ----- writes: exactly when they land -----

  /** What a write's blocks held before. */
  function Before(e: Entry): (r: seq<byte>)
    requires WriteFits(e.before, e.cbw)
    ensures |r| == Size(KindOf(e.cbw[15]), Sectors(e.cbw))
  {
    Blocks(e.before, KindOf(e.cbw[15]), Offset(e.cbw), Sectors(e.cbw))
  }

  /** Storing less of the data makes no difference exactly when the rest was there already. */
  lemma StoringLess(m: Media, k: Kind, first: nat, n: nat, a: seq<byte>, b: seq<byte>)
    requires InRange(m, k, first, n) && |a| <= |b| == Size(k, n)
    ensures Size(k, first) + |b| <= |Space(m, k)|
    ensures Stored(m, k, first, a) == Stored(m, k, first, b) <==> b == a + Blocks(m, k, first, n)[|a|..]
  {
    BlockArithmetic(k, first, n);
    var s, at := Space(m, k), Size(k, first);
    var u, v, rest := Overlay(s, at, a), Overlay(s, at, b), Blocks(m, k, first, n)[|a|..];
    assert u[at..at + |b|] == a + rest && v[at..at + |b|] == b;
    assert b == a + rest ==> u == v;
  }

  lemma WriteLandsIff(e: Entry)
    requires WriteDone(e, false) && WriteFits(e.before, e.cbw)
    ensures var k, first := KindOf(e.cbw[15]), Offset(e.cbw);
            && |e.kept| <= |e.fromHost| == Size(k, Sectors(e.cbw))
            && Size(k, first) + |e.fromHost| <= |Space(e.before, k)| && e.after == Stored(e.before, k, first, e.kept)
            && (e.after == Stored(e.before, k, first, e.fromHost) <==> e.fromHost == e.kept + Before(e)[|e.kept|..])
  {
    hide Stored, Size, InRange, Blocks, Aligned;
    StoringLess(e.before, KindOf(e.cbw[15]), Offset(e.cbw), Sectors(e.cbw), e.kept, e.fromHost);
  }

  /** In every run, whatever the pieces: a finished write of an unlocked loader that fits has stored the whole blocks
      of each piece, back to back; so all its data is in place exactly when what is missing at the end was there. */
  lemma RunWriteLandsIff(m0: Media, d: Dev, evs: seq<Event>, i: nat)
    requires Configured(d, m0) && i < |Run(d, evs).t.log| && !d.locked
    requires IsWrite(Run(d, evs).t.log[i].cbw[15]) && WriteFits(Run(d, evs).t.log[i].before, Run(d, evs).t.log[i].cbw)
    ensures var e := Run(d, evs).t.log[i];
            var k, first := KindOf(e.cbw[15]), Offset(e.cbw);
            && |e.kept| <= |e.fromHost| == Size(k, Sectors(e.cbw))
            && Size(k, first) + |e.fromHost| <= |Space(e.before, k)| && e.after == Stored(e.before, k, first, e.kept)
            && (e.after == Stored(e.before, k, first, e.fromHost) <==> e.fromHost == e.kept + Before(e)[|e.kept|..])
  {
    RunEntriesCorrect(m0, d, evs);
    RunLock(d, evs);
    var e := Run(d, evs).t.log[i];
    hide Run, WriteFits, Stored, WriteDone, Before;
    WriteLandsIff(e);
  }

  // ----- one completion of a write at a time -----

  /** A write waiting for data, after `got` has been received and handed on. */
  ghost predicate Receiving(d: Dev, cbw: Cbw, got: seq<byte>, kept: seq<byte>) {
    && Wf(d) && d.status == RxData && d.tx.give.status == SendFinishedOk
    && d.cbw == cbw && d.cmnd == cbw[15] && IsWrite(d.cmnd)
    && d.dSize == Size(KindOf(d.cmnd), Sectors(cbw)) && d.dBytes == |got| < d.dSize
    && d.rx.give.actual == 0 && d.rx.xfer.Some? && d.rx.xfer.value.len == WantBytes(KindOf(d.cmnd), d.dSize - d.dBytes)
    && d.t.fromHost == got && d.t.kept == kept
  }

  /** A write all of whose data has been received, its CSW in flight. */
  ghost predicate Queued(d: Dev, cbw: Cbw, got: seq<byte>, kept: seq<byte>) {
    && Wf(d) && d.status == Idle && Pending(d) && d.tx.give.status != SendFinishedError
    && d.cbw == cbw && d.t.fromHost == got && d.t.kept == kept
  }

  lemma WriteStarts(m0: Media, d: Dev, b: Backend)
    requires Inv(m0, d) && CbwWaits(d) && IsWrite(PendingCbw(d)[15]) && Sectors(PendingCbw(d)) > 0
    ensures var r := Poll(d, b);
            Inv(m0, r) && Receiving(r, PendingCbw(d), [], []) && r.t.log == d.t.log && r.t.csws == d.t.csws
  {
    PollInv(m0, d, b);
    PollDispatches(m0, d, b);
    var f := Dispatch(d, b);
    DispatchedWrite(m0, d, b);
    SamePoll(d, b);
    hide Inv, Dispatch, Poll;
    FirstAsk(f, b);
  }

  lemma DispatchedWrite(m0: Media, d: Dev, b: Backend)
    requires Inv(m0, d) && CbwWaits(d) && IsWrite(PendingCbw(d)[15])
    ensures var f := Dispatch(d, b);
            && f.status == RxDataPrepare && f.cbw == PendingCbw(d) && f.cmnd == f.cbw[15] && TxFree(f)
            && f.dSize == Size(KindOf(f.cmnd), Sectors(f.cbw)) && f.dBytes == 0 && f.rx.give.actual == 0
            && f.t.fromHost == [] && f.t.kept == [] && f.t.csws == d.t.csws
  {
    hide History, MayOverlap, Correct;
  }

  lemma FirstAsk(d: Dev, b: Backend)
    requires Wf(d) && d.status == RxDataPrepare && d.cmnd == d.cbw[15] && TxFree(d) && IsWrite(d.cmnd)
    requires d.dSize == Size(KindOf(d.cmnd), Sectors(d.cbw)) && d.dBytes == 0 && d.rx.give.actual == 0
    requires Sectors(d.cbw) > 0
    requires d.t.fromHost == [] && d.t.kept == []
    ensures Receiving(Poll(d, b), d.cbw, [], []) && Poll(d, b).t.csws == d.t.csws
  {
    hide Sectors, Flush, AskOrFinish, Buffers, WantBytes, Whole;
    assert Received(d) == [];
    AsksAgain(Counted(d));
    FlushSize(AskOrFinish(Counted(d)), Received(d), b);
  }

  lemma AsksAgain(d: Dev)
    requires Wf(d) && d.dBytes < d.dSize
    ensures var r := AskOrFinish(d);
            && r == d.(rx := r.rx, status := RxData) && r.rx.give.actual == 0
            && r.rx.xfer.Some? && r.rx.xfer.value.len == WantBytes(KindOf(d.cmnd), d.dSize - d.dBytes)
  {
    hide WantBytes;
  }

  /** A completion and the poll after it. */
  lemma Receives(m0: Media, d: Dev, cbw: Cbw, got: seq<byte>, kept: seq<byte>, data: seq<byte>, b: Backend)
    requires Inv(m0, d) && Receiving(d, cbw, got, kept)
    requires 0 < |data| <= WantBytes(KindOf(cbw[15]), Size(KindOf(cbw[15]), Sectors(cbw)) - |got|)
    ensures Enabled(d, RxDone(data))
    ensures var r, all := Poll(CompleteRx(d, data), b), kept + WholeBlocks(KindOf(cbw[15]), data);
            && Inv(m0, r) && r.t.log == d.t.log
            && if |got| + |data| < d.dSize then Receiving(r, cbw, got + data, all) && r.t.csws == d.t.csws
               else Queued(r, cbw, got + data, all)
  {
    DataInv(m0, d, data);
    var e := CompleteRx(d, data);
    PollInv(m0, e, b);
    PollDispatches(m0, e, b);
    PendingCount(m0, e);
    PendingCount(m0, Poll(e, b));
    PollGood(e, b);
    hide Inv;
    CompletedFields(d, data);
    hide Pending, CompleteRx;
    ReceivePoll(e, b);
    hide Poll;
  }

  lemma CompletedFields(d: Dev, data: seq<byte>)
    requires Wf(d) && d.status == RxData && d.rx.xfer.Some? && |data| <= d.rx.xfer.value.len && TxFree(d)
    ensures var e := CompleteRx(d, data);
            && e == d.(rx := e.rx, t := e.t)
            && e.t == d.t.(fromHost := d.t.fromHost + data, kept := d.t.kept + WholeBlocks(KindOf(d.cmnd), data))
            && e.rx.give.status == RecvOk && e.rx.give.actual == |data| && Received(e) == data
            && Pending(e)
  {
    var e := CompleteRx(d, data);
    assert e.rx.bufs[d.rx.xfer.value.buf][..|data|] == data;
    assert |data| == 0 ==> data == [];
  }

  lemma ReceivePoll(d: Dev, b: Backend)
    requires Wf(d) && d.status == RxData && d.rx.give.status == RecvOk && TxFree(d)
    ensures var r, total := Poll(d, b), d.dBytes + |Received(d)|;
            && r.cbw == d.cbw && r.cmnd == d.cmnd && r.t.fromHost == d.t.fromHost && r.dSize == d.dSize
            && r.t.kept == d.t.kept
            && if total < d.dSize then
                 r.status == RxData && TxFree(r) && r.dBytes == total && r.rx.give.actual == 0 && r.rx.xfer.Some?
                 && r.rx.xfer.value.len == WantBytes(KindOf(d.cmnd), d.dSize - total) && r.t.csws == d.t.csws
               else r.status == Idle
  {
    hide Flush, AskOrFinish, Buffers, WantBytes, Received, SendCsw, Dispatch;
    var c := Counted(d);
    if c.dBytes < c.dSize {
      AsksAgain(c);
    } else {
      AskMoves(c);
      AskFrame(c);
    }
    FlushSize(AskOrFinish(c), Received(d), b);
  }

  /** The CSW of the last chunk is queued before that chunk is stored; both happen in the same poll. */
  lemma CswBeforeFlush(m0: Media, d: Dev, b: Backend)
    requires Inv(m0, d) && d.status == RxData && d.rx.give.status == RecvOk && Missing(d) <= 0
    ensures var q := AskOrFinish(Counted(d));
            && q.status == Idle && |q.t.csws| == |d.t.csws| + 1 && InFlight(q) == q.t.csws[|d.t.csws|]
            && q.media == d.media
            && Poll(d, b) == Flush(q, Received(d), b)
  {
    hide History, Landed, Sectors, Aligned;
    assert |Received(d)| == d.rx.give.actual;
    CswQueued(Counted(d).(csw := Good(d.cbw)));
    FlushSize(AskOrFinish(Counted(d)), Received(d), b);
    hide Flush, SendCsw, Buffers;
  }

  // ----- runs from the configured engine -----

  /** The run that brings a write's CBW and lets the engine ask for the data. */
  lemma FirstWrite(m0: Media, d: Dev, cbw: Cbw, b: Backend)
    requires Configured(d, m0) && IsWrite(cbw[15]) && Sectors(cbw) > 0
    ensures var r := Run(d, [RxDone(cbw), Polled(b)]);
            Inv(m0, r) && Receiving(r, cbw, [], []) && r.t.log == [] && r.t.csws == []
  {
    FirstCbw(m0, d, cbw);
    RunTwo(d, RxDone(cbw), Polled(b));
    var e := Step(d, RxDone(cbw));
    WriteStarts(m0, e, b);
    hide Inv, Poll, Receiving;
  }

  /** Two more events of such a run: a completion and a poll. */
  lemma Piece(m0: Media, d: Dev, evs: seq<Event>, cbw: Cbw, got: seq<byte>, kept: seq<byte>, data: seq<byte>,
              b: Backend)
    requires Wf(d) && Inv(m0, Run(d, evs)) && Receiving(Run(d, evs), cbw, got, kept)
    requires 0 < |data| <= WantBytes(KindOf(cbw[15]), Size(KindOf(cbw[15]), Sectors(cbw)) - |got|)
    ensures Enabled(Run(d, evs), RxDone(data))
    ensures var r := Run(d, evs + [RxDone(data), Polled(b)]);
            var all := kept + WholeBlocks(KindOf(cbw[15]), data);
            && Inv(m0, r) && r.t.log == Run(d, evs).t.log
            && if |got| + |data| < Size(KindOf(cbw[15]), Sectors(cbw)) then
                 Receiving(r, cbw, got + data, all) && r.t.csws == Run(d, evs).t.csws
               else Queued(r, cbw, got + data, all)
  {
    hide Run, Poll, CompleteRx, Inv, WholeBlocks, WantBytes, Sectors, Queued;
    var s := Run(d, evs);
    Receives(m0, s, cbw, got, kept, data, b);
    RunSplit(d, evs, [RxDone(data), Polled(b)]);
    RunTwo(s, RxDone(data), Polled(b));
  }

  lemma ConfiguredWf(m0: Media, d: Dev)
    requires Configured(d, m0)
    ensures Wf(d)
  {
  }

  /** A write of one block whose only completion is short, although it succeeds: whatever happens afterwards, the
      engine stays in status RXDATA and never queues a CSW. */
  lemma OneShortPacket(m0: Media, d: Dev, cbw: Cbw, data: seq<byte>, b: Backend, more: seq<Event>)
    requires Configured(d, m0) && IsWrite(cbw[15]) && Sectors(cbw) == 1
    requires 0 < |data| < Size(KindOf(cbw[15]), 1)
    ensures Enabled(d, RxDone(cbw)) && Enabled(Run(d, [RxDone(cbw), Polled(b)]), RxDone(data))
    ensures var r := Run(d, [RxDone(cbw), Polled(b)] + [RxDone(data), Polled(b)] + more);
            r.status == RxData && r.t.fromHost == data && r.t.cbws == [cbw] && r.t.csws == []
  {
    hide Inv, Run, Receiving, Sectors, Configured, Enabled, WholeBlocks, Wf, WantBytes, TooFew;
    ConfiguredWf(m0, d);
    FirstWrite(m0, d, cbw, b);
    FirstCbw(m0, d, cbw);
    var start := [RxDone(cbw), Polled(b)];
    ShortFits(KindOf(cbw[15]), data);
    Piece(m0, d, start, cbw, [], [], data, b);
    var t := Run(d, start + [RxDone(data), Polled(b)]);
    assert [] + data == data;
    ShortSticks(t, cbw, data, []);
    ReceivingFields(t, cbw, data, []);
    RunSplit(d, start + [RxDone(data), Polled(b)], more);
    StuckForever(m0, t, more);
    OneCbw(m0, t, cbw);
  }

  lemma ShortFits(k: Kind, data: seq<byte>)
    requires 0 < |data| < Size(k, 1)
    ensures |data| <= WantBytes(k, Size(k, 1)) && TooFew(k, Size(k, 1) - |data|)
    ensures [] + WholeBlocks(k, data) == []
  {
  }

  lemma ReceivingFields(d: Dev, cbw: Cbw, got: seq<byte>, kept: seq<byte>)
    requires Receiving(d, cbw, got, kept)
    ensures d.status == RxData && d.t.fromHost == got && d.t.kept == kept && Wf(d)
  {
  }

  lemma ShortSticks(d: Dev, cbw: Cbw, got: seq<byte>, kept: seq<byte>)
    requires Receiving(d, cbw, got, kept) && TooFew(KindOf(cbw[15]), Size(KindOf(cbw[15]), Sectors(cbw)) - |got|)
    ensures Pending(d) && !CanFinish(d)
  {
  }

  lemma OneCbw(m0: Media, d: Dev, cbw: Cbw)
    requires Inv(m0, d) && Receiving(d, cbw, d.t.fromHost, d.t.kept) && d.t.csws == []
    ensures d.t.cbws == [cbw]
  {
    hide Phase, Links;
  }

  /** A write of two blocks to an unlocked loader that comes in pieces of 100, 412 and 512 bytes. Its CSW reports
      success, but only the last piece has been stored, and that in the first block: the data is in place exactly if
      both halves of it are the same and the second block held them before. */
  lemma OddPieces(m0: Media, d: Dev, cbw: Cbw, x: seq<byte>, y: seq<byte>, z: seq<byte>, b: Backend)
      returns (evs: seq<Event>)
    requires Configured(d, m0) && cbw[15] == LBA_WRITE_10 && Sectors(cbw) == 2 && !d.locked
    requires |x| == 100 && |y| == 412 && |z| == 512 && InRange(m0, Lba, Offset(cbw), 2)
    ensures var log := Run(d, evs).t.log;
            && |log| == 1 && log[0].cbw == cbw && log[0].fromHost == x + y + z && log[0].before == m0
            && log[0].csw == CswPacket(cbw, Good(cbw)) && log[0].after == Stored(m0, Lba, Offset(cbw), z)
            && (log[0].after == Stored(m0, Lba, Offset(cbw), x + y + z) <==>
                  x + y == z == Blocks(m0, Lba, Offset(cbw) + 1, 1))
  {
    hide Inv, Run, Receiving, Sectors, Offset, Configured, Queued, Stored, Wf, CswPacket, Blocks, InRange;
    ConfiguredWf(m0, d);
    FirstWrite(m0, d, cbw, b);
    evs := OddRun(m0, d, [RxDone(cbw), Polled(b)], cbw, x, y, z, b);
    QueuedEnds(m0, Run(d, evs), cbw, x + y + z, z);
    RunSplit(d, evs, [TxDone]);
    evs := evs + [TxDone];
    OddEnd(m0, d, evs);
    OddStored(m0, Offset(cbw), x + y, z);
  }

  lemma OddStored(m: Media, first: nat, a: seq<byte>, z: seq<byte>)
    requires |a| == |z| == 512 && InRange(m, Lba, first, 2)
    ensures Stored(m, Lba, first, z) == Stored(m, Lba, first, a + z) <==> a == z == Blocks(m, Lba, first + 1, 1)
  {
    StoringLess(m, Lba, first, 2, z, a + z);
    hide Stored;
    assert Blocks(m, Lba, first, 2)[512..] == Blocks(m, Lba, first + 1, 1);
    var rest := Blocks(m, Lba, first + 1, 1);
    assert (a + z)[..512] == a && (a + z)[512..] == z && (z + rest)[..512] == z && (z + rest)[512..] == rest;
  }

  lemma OddFits(x: seq<byte>, y: seq<byte>, z: seq<byte>)
    requires |x| == 100 && |y| == 412 && |z| == 512
    ensures [] + WholeBlocks(Lba, x) == [] == [] + WholeBlocks(Lba, y) && [] + WholeBlocks(Lba, z) == z
    ensures 100 <= WantBytes(Lba, 1024) && 412 <= WantBytes(Lba, 924) && 512 <= WantBytes(Lba, 512)
  {
    assert [] + z == z;
  }

  lemma OddRun(m0: Media, d: Dev, from: seq<Event>, cbw: Cbw, x: seq<byte>, y: seq<byte>, z: seq<byte>, b: Backend)
      returns (evs: seq<Event>)
    requires Wf(d) && Inv(m0, Run(d, from)) && Receiving(Run(d, from), cbw, [], []) && Run(d, from).t.log == []
    requires cbw[15] == LBA_WRITE_10 && Sectors(cbw) == 2 && |x| == 100 && |y| == 412 && |z| == 512
    ensures Inv(m0, Run(d, evs)) && Queued(Run(d, evs), cbw, x + y + z, z) && Run(d, evs).t.log == []
  {
    hide Inv, Run, Receiving, Sectors, Wf, Queued, WholeBlocks, WantBytes;
    assert [] + x == x;
    OddFits(x, y, z);
    Piece(m0, d, from, cbw, [], [], x, b);
    evs := from + [RxDone(x), Polled(b)];
    Piece(m0, d, evs, cbw, x, [], y, b);
    evs := evs + [RxDone(y), Polled(b)];
    Piece(m0, d, evs, cbw, x + y, [], z, b);
    evs := evs + [RxDone(z), Polled(b)];
  }

  /** The first entry of a log began on the medium the engine was configured with. */
  lemma OddEnd(m0: Media, d: Dev, evs: seq<Event>)
    requires Configured(d, m0) && |Run(d, evs).t.log| == 1 && !d.locked
    requires var e := Run(d, evs).t.log[0];
             IsWrite(e.cbw[15]) && WriteFits(m0, e.cbw)
    ensures var e := Run(d, evs).t.log[0];
            && e.csw == CswPacket(e.cbw, Good(e.cbw)) && e.before == m0
            && Size(KindOf(e.cbw[15]), Offset(e.cbw)) + |e.kept| <= |Space(m0, KindOf(e.cbw[15]))|
            && e.after == Stored(m0, KindOf(e.cbw[15]), Offset(e.cbw), e.kept)
  {
    RunEntriesCorrect(m0, d, evs);
    RunInv(m0, d, evs);
    var r := Run(d, evs);
    FirstBefore(m0, r);
    hide Configured, Correct, Inv, Run;
    WriteReport(r.t.log[0], r.locked);
    RunWriteLandsIff(m0, d, evs, 0);
  }

  lemma FirstBefore(m0: Media, d: Dev)
    requires Inv(m0, d) && |d.t.log| > 0
    ensures d.t.log[0].before == m0
  {
    hide Phase, Correct, Links;
    ExplainedBefore(m0, d.t.log, if Pending(d) then d.t.start else d.media, d.locked, 0);
  }

  lemma QueuedEnds(m0: Media, d: Dev, cbw: Cbw, got: seq<byte>, kept: seq<byte>)
    requires Inv(m0, d) && Queued(d, cbw, got, kept) && d.t.log == []
    ensures var log := Run(d, [TxDone]).t.log;
            |log| == 1 && log[0].cbw == cbw && log[0].fromHost == got && log[0].kept == kept
  {
    CswArrives(m0, d);
    CswEntry(m0, d);
    QueuedOut(m0, d);
    OneEntry(m0, d);
    hide Inv, Run;
  }

  lemma QueuedOut(m0: Media, d: Dev)
    requires Inv(m0, d) && d.status == Idle && Pending(d) && d.tx.give.status != SendFinishedError
    ensures d.tx.xfer.Some?
  {
    hide Phase, History;
  }

  lemma OneEntry(m0: Media, d: Dev)
    requires Wf(d) && d.status == Idle && d.tx.xfer.Some?
    ensures |Run(d, [TxDone]).t.log| == |d.t.log| + 1
  {
    RunOne(d, TxDone);
  }

  lemma WriteReport(e: Entry, locked: bool)
    requires Correct(e, locked) && IsWrite(e.cbw[15])
    ensures e.csw == CswPacket(e.cbw, Good(e.cbw))
  {
    hide CswPacket, WriteDone;
  }

  /** An empty completion in place of the first CBW: the engine never does anything again. */
  lemma EmptyPacket(m0: Media, d: Dev, more: seq<Event>)
    requires Configured(d, m0)
    ensures Enabled(d, RxDone([]))
    ensures Run(d, [RxDone([])] + more) == Step(d, RxDone([])) && Run(d, [RxDone([])] + more).t.cbws == []
  {
    RunOne(d, RxDone([]));
    RunSplit(d, [RxDone([])], more);
    assert Halted(Step(d, RxDone([])));
    HaltedForever(Step(d, RxDone([])), more);
  }
}
