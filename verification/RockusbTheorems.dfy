/** What the RockUSB engine guarantees over whole runs: block-store refinement, CBW/CSW pairing,
    buffer ownership, the prefetch pipeline, writes, progress, and the exact cases that fail. */
module RockusbTheorems {
  import opened Bytes
  import opened BlockStore
  import opened RockusbModel
  import opened RockusbInvariant

  // ----- the engine refines an uncached block store -----

  /** The medium of a store without engine, buffers or cache after the same command; of a write's data it stores the
      whole blocks of each piece, which is all of it if every piece is whole blocks. */
  function Direct(m: Media, e: Entry, locked: bool): Media
  {
    var op, k, first := e.cbw[15], KindOf(e.cbw[15]), Offset(e.cbw);
    if IsWrite(op) && !locked && Size(k, first) + |e.kept| <= |Space(m, k)|
    then Stored(m, k, first, e.kept)
    else EffectOf(e.cbw, e.answer, m, locked)
  }

  function Replay(m0: Media, log: seq<Entry>, locked: bool): Media
    decreases |log|
  {
    if log == [] then m0 else Direct(Replay(m0, log[..|log| - 1], locked), log[|log| - 1], locked)
  }

  /** A write lies on the medium. */
  predicate Served(e: Entry, locked: bool) {
    IsWrite(e.cbw[15]) && !locked ==> WriteFits(e.before, e.cbw)
  }

  /** A read returned what medium m holds: in each window that is on the medium, and altogether if all are, which
      takes in up to 127 blocks behind the request. */
  ghost predicate ReturnsMedium(m: Media, e: Entry) {
    var k, first, n := KindOf(e.cbw[15]), Offset(e.cbw), Sectors(e.cbw);
    && |e.toHost| == Size(k, n) && Windows(m, e.cbw, e.toHost)
    && (ReadFits(m, e.cbw) ==> InRange(m, k, first, n) && e.toHost == Blocks(m, k, first, n))
  }

  /** Every read of the log returned what the direct store holds at that point. */
  ghost predicate ReadsDirect(m0: Media, log: seq<Entry>, locked: bool)
  {
    forall i :: 0 <= i < |log| && IsRead(log[i].cbw[15]) ==> ReturnsMedium(Replay(m0, log[..i], locked), log[i])
  }

  lemma DirectAgrees(e: Entry, locked: bool)
    requires Correct(e, locked) && Served(e, locked)
    ensures Direct(e.before, e, locked) == e.after
  {
    hide Windows;
  }

  lemma OneMore(m: Media, k: Kind, first: nat, data: seq<byte>, at: nat, n: nat)
    requires InRange(m, k, first, at) && InRange(m, k, first + at, n) && Size(k, at + n) <= |data|
    requires Size(k, at) <= |data| && data[..Size(k, at)] == Blocks(m, k, first, at)
    requires data[Size(k, at)..Size(k, at + n)] == Blocks(m, k, first + at, n)
    ensures InRange(m, k, first, at + n) && data[..Size(k, at + n)] == Blocks(m, k, first, at + n)
  {
    BlocksJoin(m, k, first, at, n);
    BlockArithmetic(k, at, n);
    assert data[..Size(k, at + n)] == data[..Size(k, at)] + data[Size(k, at)..Size(k, at + n)];
  }

  /** `data` begins with the first a blocks of a request. */
  predicate Begins(m: Media, cbw: Cbw, data: seq<byte>, a: nat) {
    var k := KindOf(cbw[15]);
    InRange(m, k, Offset(cbw), a) && Size(k, a) <= |data| && data[..Size(k, a)] == Blocks(m, k, Offset(cbw), a)
  }

  lemma WindowJoins(m: Media, cbw: Cbw, data: seq<byte>, at: nat)
    requires ReadFits(m, cbw) && Windows(m, cbw, data) && |data| == Size(KindOf(cbw[15]), Sectors(cbw))
    requires WindowStart(at) && at < Sectors(cbw) && Begins(m, cbw, data, at)
    ensures Begins(m, cbw, data, Min(at + BUFFER_BLOCK_MAX, Sectors(cbw)))
  {
    hide Blocks, InRange, Sectors, Offset, ReadFits, Windows, WindowStart, WindowOn, Held, Size, Whole;
    HeldIs(cbw, data, at);
    WindowFits(m, cbw, at);
    ExactAt(m, cbw, data, at);
    OneMore(m, KindOf(cbw[15]), Offset(cbw), data, at, Held(cbw, data, at));
  }

  lemma HeldIs(cbw: Cbw, data: seq<byte>, at: nat)
    requires |data| == Size(KindOf(cbw[15]), Sectors(cbw)) && at < Sectors(cbw)
    ensures at < Whole(KindOf(cbw[15]), |data|)
    ensures at + Held(cbw, data, at) == Min(at + BUFFER_BLOCK_MAX, Sectors(cbw))
  {
    hide Sectors;
    BlockArithmetic(KindOf(cbw[15]), Sectors(cbw), 0);
  }

  lemma ExactAt(m: Media, cbw: Cbw, data: seq<byte>, at: nat)
    requires Windows(m, cbw, data) && WindowStart(at) && at < Whole(KindOf(cbw[15]), |data|)
    ensures WindowExact(m, cbw, data, at)
  {
  }

  /** Exact windows that are all on the medium make the whole request. */
  lemma {:induction false} WindowsJoin(m: Media, cbw: Cbw, data: seq<byte>, j: nat)
    requires ReadFits(m, cbw) && Windows(m, cbw, data) && |data| == Size(KindOf(cbw[15]), Sectors(cbw))
    ensures Begins(m, cbw, data, Min(j * BUFFER_BLOCK_MAX, Sectors(cbw)))
    decreases j
  {
    hide Begins, Windows, ReadFits, Sectors, WindowStart;
    if j == 0 {
      NothingBegins(m, cbw, data);
    } else {
      WindowsJoin(m, cbw, data, j - 1);
      StartOf(j - 1);
      if (j - 1) * BUFFER_BLOCK_MAX < Sectors(cbw) {
        WindowJoins(m, cbw, data, (j - 1) * BUFFER_BLOCK_MAX);
      }
    }
  }

  lemma StartOf(j: nat)
    ensures WindowStart(j * BUFFER_BLOCK_MAX)
  {
  }

  lemma NothingBegins(m: Media, cbw: Cbw, data: seq<byte>)
    requires ReadFits(m, cbw)
    ensures Begins(m, cbw, data, 0)
  {
  }

  /** A finished read all of whose windows are on the medium delivered exactly the blocks asked for. */
  lemma ReadExact(e: Entry)
    requires ReadDone(e) && ReadFits(e.before, e.cbw)
    ensures var k, first, n := KindOf(e.cbw[15]), Offset(e.cbw), Sectors(e.cbw);
            InRange(e.before, k, first, n) && e.toHost == Blocks(e.before, k, first, n)
  {
    var n := Sectors(e.cbw);
    WindowsJoin(e.before, e.cbw, e.toHost, n);
    assert e.toHost[..|e.toHost|] == e.toHost;
  }

  lemma ReadReturns(e: Entry, locked: bool)
    requires Correct(e, locked) && IsRead(e.cbw[15])
    ensures ReturnsMedium(e.before, e)
  {
    hide Windows, ReadFits, Sectors, Offset, Blocks, Answers, CswPacket;
    if ReadFits(e.before, e.cbw) {
      ReadExact(e);
    }
  }

  lemma {:induction false} ExplainedReplays(m0: Media, log: seq<Entry>, m: Media, locked: bool)
    requires Explained(m0, log, m, locked) && forall e :: e in log ==> Served(e, locked)
    ensures Replay(m0, log, locked) == m && ReadsDirect(m0, log, locked)
    decreases |log|
  {
    if log != [] {
      var init, last := log[..|log| - 1], log[|log| - 1];
      assert last in log && forall e :: e in init ==> e in log;
      ExplainedReplays(m0, init, last.before, locked);
      DirectAgrees(last, locked);
      hide Correct, Direct, Served, ReturnsMedium;
      forall i | 0 <= i < |log| && IsRead(log[i].cbw[15])
        ensures ReturnsMedium(Replay(m0, log[..i], locked), log[i])
      {
        if i < |init| {
          assert log[i] == init[i] && log[..i] == init[..i];
        } else {
          ReadReturns(last, locked);
        }
      }
    }
  }

  /** Main theorem. In every run, whatever the host sends and however transfers complete, in pieces of any size: if the
      finished writes lay on the medium, each finished read returned what a store without cache would have
      (ReturnsMedium), and between commands the medium is exactly that store's medium. */
  lemma RunRefinesStore(m0: Media, d: Dev, evs: seq<Event>)
    requires Configured(d, m0)
    requires forall e :: e in Run(d, evs).t.log ==> Served(e, Run(d, evs).locked)
    ensures var r := Run(d, evs);
            && ReadsDirect(m0, r.t.log, r.locked)
            && (!Pending(r) ==> r.media == Replay(m0, r.t.log, r.locked))
  {
    RunInv(m0, d, evs);
    var r := Run(d, evs);
    ExplainedReplays(m0, r.t.log, if Pending(r) then r.t.start else r.media, r.locked);
  }

  lemma {:induction false} ExplainedCorrect(m0: Media, log: seq<Entry>, m: Media, locked: bool, i: nat)
    requires Explained(m0, log, m, locked) && i < |log|
    ensures Correct(log[i], locked)
    decreases |log|
  {
    var init, last := log[..|log| - 1], log[|log| - 1];
    if i < |init| {
      assert init[i] == log[i];
      ExplainedCorrect(m0, init, last.before, locked, i);
    }
  }

  /** In every run every finished command is correct: reads delivered blocks lba..lba+n-1 of the medium they
      were dispatched on, each once and in order (ReadDone); writes landed (WriteDone); and the i-th
      finished command is the i-th one dispatched. */
  lemma RunEntriesCorrect(m0: Media, d: Dev, evs: seq<Event>)
    requires Configured(d, m0)
    ensures var r := Run(d, evs);
            forall i :: 0 <= i < |r.t.log| ==>
              Correct(r.t.log[i], r.locked) && i < |r.t.cbws| && r.t.log[i].cbw == r.t.cbws[i]
  {
    RunInv(m0, d, evs);
    var r := Run(d, evs);
    forall i | 0 <= i < |r.t.log|
      ensures Correct(r.t.log[i], r.locked)
    {
      ExplainedCorrect(m0, r.t.log, if Pending(r) then r.t.start else r.media, r.locked, i);
    }
  }

  // ----- CBW/CSW pairing -----

  /** In every run the CSWs queued answer the CBWs dispatched, in order, one to one, at most one behind, and
      none behind in status Idle (Bulk-Only Transport, sections 5.1 and 5.2). */
  lemma RunPairsCsws(m0: Media, d: Dev, evs: seq<Event>)
    requires Configured(d, m0)
    ensures var t := Run(d, evs).t;
            && |t.csws| <= |t.cbws| <= |t.csws| + 1
            && (Run(d, evs).status == Idle <==> |t.csws| == |t.cbws|)
            && (forall i :: 0 <= i < |t.csws| ==> Answers(t.csws[i], t.cbws[i]))
  {
    RunInv(m0, d, evs);
  }

  /** A non-empty transfer that completes in status Idle carries a CBW. */
  predicate CbwArrives(d: Dev, ev: Event) {
    d.status == Idle && ev.RxDone? && |ev.data| > 0 && Enabled(d, ev)
  }

  /** The CBWs that arrived during a run, in order. */
  function Arrivals(d: Dev, evs: seq<Event>): seq<seq<byte>>
    requires Wf(d)
    decreases |evs|
  {
    if evs == [] then []
    else
      var before, last := evs[..|evs| - 1], evs[|evs| - 1];
      Arrivals(d, before) + (if CbwArrives(Run(d, before), last) then [last.data] else [])
  }

  /** A CBW has arrived and is not dispatched yet. */
  predicate CbwWaits(d: Dev) {
    d.status == Idle && d.rx.give.actual > 0
  }

  /** A poll dispatches the waiting CBW, if there is one, and nothing else. */
  lemma PollDispatches(m0: Media, d: Dev, b: Backend)
    requires Inv(m0, d)
    ensures var r := Poll(d, b);
            && r.t.cbws == (if CbwWaits(d) then d.t.cbws + [PendingCbw(d)] else d.t.cbws)
            && r.t.log == d.t.log && !CbwWaits(r)
  {
    var e := if CbwWaits(d) then Dispatch(d, b) else d;
    RespondFrame(e, b);
    var f := Respond(e, b);
    hide Dispatch, Respond, Phase, History;
    if CbwWaits(d) {
      DispatchFrame(d, b);
    }
    SendFrame(f);
  }

  lemma DispatchFrame(d: Dev, b: Backend)
    requires Wf(d) && d.rx.give.actual > 0
    ensures Dispatch(d, b).t.cbws == d.t.cbws + [PendingCbw(d)] && Dispatch(d, b).status != Idle
    ensures Dispatch(d, b).t.log == d.t.log
  {
    hide Overlay, Exactly, Left, Buffers, Size;
  }

  lemma SendFrame(d: Dev)
    requires Wf(d)
    ensures SendCsw(d).t.cbws == d.t.cbws && SendCsw(d).t.log == d.t.log
    ensures d.status != Idle && SendCsw(d).status == Idle ==> SendCsw(d).rx.give.actual == 0
  {
    hide FillTx, CswPacket;
  }

  lemma RespondFrame(d: Dev, b: Backend)
    requires Wf(d)
    ensures Respond(d, b).t.cbws == d.t.cbws && Respond(d, b).t.log == d.t.log
    ensures d.status == Idle ==> Respond(d, b) == d
    ensures d.status != Idle && Respond(d, b).status == Idle ==> Respond(d, b).rx.give.actual == 0
  {
    hide HandleDataTx, Flush, AskOrFinish, SendCsw, PostOut;
    if d.status == TxDataPrepare {
      ReadFrame(d, b);
      ReadStatus(d, b);
    } else if d.status == RxData || d.status == RxDataPrepare {
      AskFrame(Counted(d));
      FlushSize(AskOrFinish(Counted(d)), Received(d), b);
      AskStatus(Counted(d));
    }
  }

  lemma ReadStatus(d: Dev, b: Backend)
    requires Wf(d)
    ensures HandleDataTx(d, b).status == d.status || HandleDataTx(d, b).status == Csw
  {
    hide Overlay, StorageRead, ChunkBlocks, ChunkBytes;
  }

  lemma AskStatus(d: Dev)
    requires Wf(d) && d.status != Idle
    ensures AskOrFinish(d).status == Idle ==> AskOrFinish(d).rx.give.actual == 0
  {
    hide FillTx, CswPacket;
  }

  /** The dispatched CBWs are the arrivals, in order, each padded to 31 bytes by what its buffer held
      before; the last arrival may still be waiting. */
  predicate Dispatched(a: seq<seq<byte>>, d: Dev)
    requires Wf(d)
  {
    && |a| == |d.t.cbws| + (if CbwWaits(d) then 1 else 0)
    && (forall i :: 0 <= i < |d.t.cbws| ==> a[i] <= d.t.cbws[i])
    && (CbwWaits(d) ==> Received(d) == a[|a| - 1])
  }

  lemma PollKeepsDispatched(m0: Media, a: seq<seq<byte>>, d: Dev, b: Backend)
    requires Inv(m0, d) && Dispatched(a, d)
    ensures Dispatched(a, Poll(d, b))
  {
    hide Poll, Phase, History, Links, PendingCbw, Buffers, Addressable, Received;
    PollDispatches(m0, d, b);
    if CbwWaits(d) {
      WaitingPrefix(m0, d);
    }
  }

  /** The CBW dispatched begins with the bytes that arrived. */
  lemma WaitingPrefix(m0: Media, d: Dev)
    requires Inv(m0, d) && CbwWaits(d)
    ensures Received(d) <= PendingCbw(d)
  {
  }

  lemma StepKeepsDispatched(m0: Media, a: seq<seq<byte>>, d: Dev, ev: Event)
    requires Inv(m0, d) && Dispatched(a, d)
    ensures Dispatched(a + (if CbwArrives(d, ev) then [ev.data] else []), Step(d, ev))
  {
    hide Poll, Phase, History;
    assert a + [] == a;
    if ev.Polled? {
      PollKeepsDispatched(m0, a, d, ev.b);
    } else if ev.RxDone? && Enabled(d, ev) {
      var r := CompleteRx(d, ev.data);
      assert Received(r) == ev.data;
    }
  }

  /** In every run each CBW that arrives is dispatched exactly once and in order. */
  lemma {:induction false} RunDispatchesOnce(m0: Media, d: Dev, evs: seq<Event>)
    requires Configured(d, m0)
    ensures Dispatched(Arrivals(d, evs), Run(d, evs))
    decreases |evs|
  {
    if evs != [] {
      var before, last := evs[..|evs| - 1], evs[|evs| - 1];
      RunDispatchesOnce(m0, d, before);
      RunInv(m0, d, before);
      hide Inv, Step, Dispatched;
      StepKeepsDispatched(m0, Arrivals(d, before), Run(d, before), last);
    }
  }

  // ----- buffers -----

  /** While a transfer is outstanding in either direction a poll changes nothing at all: in particular no
      handler posts a second transfer, and none writes the buffer in flight or the buffer posted. */
  lemma PollWaits(m0: Media, d: Dev, b: Backend)
    requires Inv(m0, d) && (d.tx.xfer.Some? || d.rx.xfer.Some?)
    ensures Poll(d, b) == d
  {
    hide History, Windows, HandleDataRx, HandleDataTx, Landed;
  }

  /** Inside a poll too: the refill of rkusb_handle_datatx, which runs after the chunk was posted, writes only
      the buffer that is not in flight. */
  lemma RefillSparesFlight(d: Dev, n: nat, b: Backend)
    requires Wf(d) && Links(d) && d.tx.xfer.Some? && n <= BUFFER_BLOCK_MAX
    ensures var slot := d.tx.xfer.value.buf;
            Refill(d, n, b).tx.bufs[slot] == d.tx.bufs[slot] && Refill(d, n, b).tx.xfer == d.tx.xfer
  {
    hide StorageRead, Overlay;
  }

  /** And the receive posted by rkusb_handle_datarx, which runs before the flush, is not into the buffer
      being flushed, whose bytes are still those received. */
  lemma PostSparesFlush(m0: Media, d: Dev)
    requires Inv(m0, d) && d.status == RxData && d.rx.give.actual > 0
    ensures var r := AskOrFinish(Counted(d));
            && r.rx.xfer.Some? && r.rx.xfer.value.buf != d.rx.give.buf.value
            && r.rx.bufs[d.rx.give.buf.value][..d.rx.give.actual] == Received(d)
  {
    hide History, Landed, Overlay, CswPacket;
  }

  /** A completing receive writes only the posted buffer, and leaves the other direction alone. */
  lemma RxDoneSpares(d: Dev, data: seq<byte>, slot: Slot)
    requires Wf(d) && Enabled(d, RxDone(data)) && slot != d.rx.xfer.value.buf
    ensures CompleteRx(d, data).rx.bufs[slot] == d.rx.bufs[slot] && CompleteRx(d, data).tx == d.tx
  {
  }

  // ----- the prefetch pipeline -----

  function BlocksLeft(d: Dev): int {
    Sectors(d.cbw) - DoneBlocks(d)
  }

  /** ceil(left / 128) */
  function CallsFor(left: int): int {
    (left + BUFFER_BLOCK_MAX - 1) / BUFFER_BLOCK_MAX
  }

  /** A prefetched window that is on the medium holds its blocks. */
  lemma WindowContents(d: Dev)
    requires Wf(d) && PhaseRead(d) && WindowReady(d) && 0 < d.uBytes && WindowOn(d.media, d.cbw, DoneBlocks(d))
    ensures var k, at := KindOf(d.cbw[15]), Offset(d.cbw) + DoneBlocks(d);
            InRange(d.media, k, at, BUFFER_BLOCK_MAX) &&
            d.tx.bufs[d.tx.num][..Size(k, BUFFER_BLOCK_MAX)] == Blocks(d.media, k, at, BUFFER_BLOCK_MAX)
  {
    hide Buffers, Sectors, Offset;
    var k, done := KindOf(d.cbw[15]), DoneBlocks(d);
    BlockArithmetic(k, done, BUFFER_BLOCK_MAX);
    BlockArithmetic(k, done + BUFFER_BLOCK_MAX, 0);
    assert WindowExact(d.media, d.cbw, d.t.fetched, done);
    assert d.t.fetched[d.uBytes..] == d.t.fetched[d.uBytes..|d.t.fetched|];
  }

  /** In every run, in the middle of a read: the window starts at the block to be sent next, is 0x80 blocks
      long, is the current tx buffer, passes the send guard, does not reach past block lba+n+126, and holds its
      blocks if it is on the medium. */
  lemma RunWindowReady(m0: Media, d: Dev, evs: seq<Event>)
    requires Configured(d, m0) && Run(d, evs).status == TxDataPrepare
    requires 0 < Run(d, evs).uBytes
    ensures var r := Run(d, evs);
            && r.pre == PreRead(Some(r.tx.num), r.lba, BUFFER_BLOCK_MAX)
            && Prefetched(r)
            && r.lba == U32(Offset(r.cbw) + DoneBlocks(r))
            && DoneBlocks(r) + BUFFER_BLOCK_MAX - 1 <= Sectors(r.cbw) + 126
            && (WindowOn(r.media, r.cbw, DoneBlocks(r)) ==>
                  var k := KindOf(r.cbw[15]);
                  && InRange(r.media, k, Offset(r.cbw) + DoneBlocks(r), BUFFER_BLOCK_MAX)
                  && r.tx.bufs[r.tx.num][..Size(k, BUFFER_BLOCK_MAX)]
                     == Blocks(r.media, k, Offset(r.cbw) + DoneBlocks(r), BUFFER_BLOCK_MAX))
  {
    hide Run, Windows, History, Links, Sectors, Offset, ChunkBlocks, ChunkBytes;
    RunInv(m0, d, evs);
    WindowHolds(Run(d, evs));
    var r := Run(d, evs);
    if WindowOn(r.media, r.cbw, DoneBlocks(r)) {
      WindowContents(r);
    }
  }

  /** Each call of rkusb_handle_datatx brings a read one call nearer its end: a read of n blocks takes exactly
      ceil(n / 128) calls. */
  lemma ReadCallsCountDown(m0: Media, d: Dev, b: Backend)
    requires Inv(m0, d) && d.status == TxDataPrepare && d.uBytes < d.uSize && TxFree(d)
    ensures var r := Respond(d, b);
            && CallsFor(BlocksLeft(r)) == CallsFor(BlocksLeft(d)) - 1
            && (r.status == Csw <==> CallsFor(BlocksLeft(r)) == 0)
            && (r.status == TxDataPrepare <==> CallsFor(BlocksLeft(r)) > 0)
  {
    hide History, Windows, Links, HandleDataTx;
    ReadCall(d, b);
    ReadFrame(d, b);
    ChunkSizes(d);
    var r := HandleDataTx(d, b);
    assert PhaseRead(r);
    hide CallDone;
    ChunkSizes(r);
  }

  function Passes(d: Dev, b: Backend, k: nat): (r: Dev)
    requires Wf(d)
    ensures Wf(r)
    decreases k
  {
    if k == 0 then d else TxPass(Passes(d, b, k - 1), b)
  }

  /** A read that asks for blocks leaves the loop of rkusb_handle_datatx after at most two passes; a read of
      zero blocks never does. */
  lemma ReadLoopStops(m0: Media, d: Dev, b: Backend)
    requires Inv(m0, d) && d.status == TxDataPrepare && d.uBytes == 0
    ensures (exists k: nat :: Passes(d, b, k).uBytes > 0) <==> Sectors(d.cbw) > 0
    ensures Sectors(d.cbw) > 0 ==> Passes(d, b, 2).uBytes > 0
  {
    hide History, Windows, TxPass, Links, PhaseRead;
    assert Addressable(d.media);
    PassFrame(d, b);
    if Sectors(d.cbw) > 0 {
      SizeSign(d);
      FirstPass(d, b);
      var e := TxPass(d, b);
      LoadedPass(e, b);
      assert Passes(d, b, 1) == e by {
        assert Passes(d, b, 0) == d;
      }
      assert Passes(d, b, 2) == TxPass(e, b);
    } else {
      SizeSign(d);
      forall k: nat
        ensures Passes(d, b, k).uBytes == 0
      {
        Spins(d, b, k);
      }
    }
  }

  lemma SizeSign(d: Dev)
    requires Wf(d) && PhaseRead(d)
    ensures (d.uSize > 0 <==> Sectors(d.cbw) > 0) && (d.uBytes == 0 ==> DoneBlocks(d) == 0)
  {
  }

  lemma {:induction false} Spins(d: Dev, b: Backend, k: nat)
    requires Wf(d) && d.uSize == 0 && CacheEmpty(d)
    ensures Passes(d, b, k) == d
  {
    hide TxPass;
    if k > 0 {
      Spins(d, b, k - 1);
      SpinningPass(d, b);
    }
  }

  /** The test of the write commands on its own, for any window whose end and any request whose end do not wrap: the
      window is kept exactly if it lies at least a block behind the request or before it, and is emptied otherwise. So
      one that survives shares no block with the request. */
  lemma WriteDropsOverlap(d: Dev)
    requires Wf(d)
    requires d.pre.lba + d.pre.blocks < 0x1_0000_0000 && Offset(d.cbw) + Sectors(d.cbw) < 0x1_0000_0000
    ensures var p, kept := StartWrite(d).pre,
                           Offset(d.cbw) + Sectors(d.cbw) < d.pre.lba || Offset(d.cbw) > d.pre.lba + d.pre.blocks;
            p == if kept then d.pre else PreRead(d.pre.buf, 0, 0)
  {
  }

  // ----- when a read is on the medium -----

  /** ReadFits says just that: all windows of the read are on the medium. */
  lemma ReadFitsIff(m: Media, cbw: Cbw)
    requires Sectors(cbw) > 0
    ensures ReadFits(m, cbw) <==> forall at: nat :: WindowStart(at) && at < Sectors(cbw) ==> WindowOn(m, cbw, at)
  {
    var n := Sectors(cbw);
    var last := (n - 1) / BUFFER_BLOCK_MAX * BUFFER_BLOCK_MAX;
    assert WindowStart(last) && last < n;
    assert n > BUFFER_BLOCK_MAX ==> last > 0 && Reach(n) == last + BUFFER_BLOCK_MAX;
  }

  // ----- the residue a CSW states -----

  /** dCBWDataTransferLength, and the residue field of a CSW; both little-endian on the wire (sections 5.1, 5.2). */
  function Length(cbw: Cbw): int {
    cbw[8] as int + cbw[9] as int * 0x100 + cbw[10] as int * 0x1_0000 + cbw[11] as int * 0x100_0000
  }

  function StatedResidue(csw: seq<byte>): int
    requires |csw| == CSW_LEN
  {
    csw[8] as int + csw[9] as int * 0x100 + csw[10] as int * 0x1_0000 + csw[11] as int * 0x100_0000
  }

  /** Bytes a command moves, from its CBW alone. */
  function Moves(cbw: Cbw): nat {
    if IsRead(cbw[15]) || IsWrite(cbw[15]) then Size(KindOf(cbw[15]), Sectors(cbw)) else ReplySize(cbw[15])
  }

  /** Section 5.2 wants the requested length less what was moved. The engine states the length field with its bytes
      reversed, so a finished command other than TestUnitReady states the right residue exactly when what it moves
      makes up for that: never after moving exactly a non-zero length, and after moving nothing just when the four
      length bytes read the same both ways. */
  lemma ResidueIff(e: Entry, locked: bool)
    requires Correct(e, locked) && e.cbw[15] != TEST_UNIT_READY
    ensures |e.csw| == CSW_LEN && |e.toHost| + |e.fromHost| == Moves(e.cbw)
    ensures var moved, right := Moves(e.cbw), StatedResidue(e.csw) == Length(e.cbw) - Moves(e.cbw);
            && (right <==> Be32(e.cbw, 8) + moved == Length(e.cbw))
            && (moved == Length(e.cbw) ==> (right <==> moved == 0))
            && (moved == 0 ==> (right <==> e.cbw[8] == e.cbw[11] && e.cbw[9] == e.cbw[10]))
  {
    MovesAll(e, locked);
    StatedIs(e, locked);
    Reversed(e.cbw);
    hide Correct, Be32, Moves;
  }

  lemma MovesAll(e: Entry, locked: bool)
    requires Correct(e, locked)
    ensures |e.toHost| + |e.fromHost| == Moves(e.cbw)
  {
    hide Windows, Stored, Answers, CswPacket;
  }

  lemma StatedIs(e: Entry, locked: bool)
    requires Correct(e, locked) && e.cbw[15] != TEST_UNIT_READY
    ensures |e.csw| == CSW_LEN && StatedResidue(e.csw) == Be32(e.cbw, 8)
  {
    hide ReadDone, WriteDone, OtherDone;
    assert ReportOf(e.cbw, e.answer, locked).residue == Residue(e.cbw);
    assert Exactly(Residue(e.cbw), 4) == Residue(e.cbw);
    assert e.csw[8..12] == Residue(e.cbw);
    assert e.csw[8] == e.csw[8..12][0] && e.csw[9] == e.csw[8..12][1] && e.csw[10] == e.csw[8..12][2]
        && e.csw[11] == e.csw[8..12][3];
  }

  lemma Reversed(cbw: Cbw)
    ensures Be32(cbw, 8) == 0 <==> Length(cbw) == 0
    ensures Be32(cbw, 8) == Length(cbw) <==> cbw[8] == cbw[11] && cbw[9] == cbw[10]
  {
  }

  // ----- the lock stays, the history only grows -----

  lemma DispatchLock(d: Dev, b: Backend)
    requires Wf(d) && d.rx.give.actual > 0
    ensures Dispatch(d, b).locked == d.locked
  {
    hide Overlay, Exactly, Left, Buffers, Size;
  }

  lemma SendLock(d: Dev)
    requires Wf(d)
    ensures SendCsw(d).locked == d.locked
  {
    hide Overlay, CswPacket;
  }

  lemma RespondLock(d: Dev, b: Backend)
    requires Wf(d)
    ensures Respond(d, b).locked == d.locked
  {
    hide HandleDataTx, Flush, AskOrFinish;
    if d.status == TxDataPrepare {
      ReadFrame(d, b);
    } else if d.status == RxData || d.status == RxDataPrepare {
      AskFrame(Counted(d));
      FlushSize(AskOrFinish(Counted(d)), Received(d), b);
    }
  }

  lemma StepLock(d: Dev, ev: Event)
    requires Wf(d)
    ensures Step(d, ev).locked == d.locked
  {
    hide Dispatch, Respond, SendCsw;
    if ev.Polled? {
      var e := if CbwWaits(d) then Dispatch(d, ev.b) else d;
      if CbwWaits(d) {
        DispatchLock(d, ev.b);
      }
      RespondLock(e, ev.b);
      SendLock(Respond(e, ev.b));
    }
  }

  lemma {:induction false} RunLock(d: Dev, evs: seq<Event>)
    requires Wf(d)
    ensures Run(d, evs).locked == d.locked
    decreases |evs|
  {
    hide Step;
    if evs != [] {
      RunLock(d, evs[..|evs| - 1]);
      StepLock(Run(d, evs[..|evs| - 1]), evs[|evs| - 1]);
    }
  }

  lemma StepGrows(m0: Media, d: Dev, ev: Event)
    requires Inv(m0, d)
    ensures d.t.cbws <= Step(d, ev).t.cbws && d.t.log <= Step(d, ev).t.log
  {
    hide Inv, Poll;
    if ev.Polled? {
      PollDispatches(m0, d, ev.b);
    }
  }

  lemma {:induction false} RunSplit(d: Dev, a: seq<Event>, b: seq<Event>)
    requires Wf(d)
    ensures Run(d, a + b) == Run(Run(d, a), b)
    decreases |b|
  {
    hide Step, Wf;
    if b == [] {
      assert a + b == a;
    } else {
      var c, last := b[..|b| - 1], b[|b| - 1];
      RunSplit(d, a, c);
      assert (a + b)[..|a + b| - 1] == a + c && (a + b)[|a + b| - 1] == last;
    }
  }

  /** From any reachable state on the invariant holds, and commands dispatched and finished stay so. */
  lemma {:induction false} RunGrows(m0: Media, d: Dev, evs: seq<Event>)
    requires Inv(m0, d)
    ensures Inv(m0, Run(d, evs)) && d.t.cbws <= Run(d, evs).t.cbws && d.t.log <= Run(d, evs).t.log
    decreases |evs|
  {
    assert Wf(d);
    hide Inv, Step;
    if evs != [] {
      var before, last := evs[..|evs| - 1], evs[|evs| - 1];
      RunGrows(m0, d, before);
      StepInv(m0, Run(d, before), last);
      StepGrows(m0, Run(d, before), last);
    }
  }

  lemma StepFlight(m0: Media, d: Dev, ev: Event)
    requires Inv(m0, d) && d.tx.xfer.Some? && ev != TxDone && ev != TxFailed
    ensures Step(d, ev).tx.xfer == d.tx.xfer && InFlight(Step(d, ev)) == InFlight(d)
  {
    hide Inv, Poll, CompleteRx;
    InvWf(m0, d);
    if ev.Polled? {
      PollWaits(m0, d, ev.b);
    } else if Enabled(d, ev) && ev.RxDone? {
      RxDoneSpares(d, ev.data, Other(d.rx.xfer.value.buf));
    }
  }

  /** The host gets what was posted: from any reachable state with a bulk-in transfer outstanding, whatever else
      happens, the transfer stays and its bytes do not change until it completes or fails. */
  lemma {:induction false} RunFlight(m0: Media, d: Dev, evs: seq<Event>)
    requires Inv(m0, d) && d.tx.xfer.Some? && TxDone !in evs && TxFailed !in evs
    ensures Run(d, evs).tx.xfer == d.tx.xfer && InFlight(Run(d, evs)) == InFlight(d)
    decreases |evs|
  {
    InvWf(m0, d);
    hide Inv, Step;
    if evs != [] {
      var before, last := evs[..|evs| - 1], evs[|evs| - 1];
      assert last in evs && forall ev :: ev in before ==> ev in evs;
      RunFlight(m0, d, before);
      RunGrows(m0, d, before);
      StepFlight(m0, Run(d, before), last);
    }
  }
}
