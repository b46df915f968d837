/** Reads of the RockUSB engine over whole runs: how many calls they take, and exactly which of them deliver the
    medium whatever the storage answers to requests off it. */
module RockusbReads {
  import opened Bytes
  import opened BlockStore
  import opened RockusbModel
  import opened RockusbInvariant
  import opened RockusbTheorems
  import opened RockusbProgress

  // ----- which command an entry is about -----

  /** While a CBW waits nothing happens but its dispatch. */
  lemma {:induction false} NextCbw(m0: Media, d: Dev, evs: seq<Event>)
    requires Inv(m0, d) && CbwWaits(d)
    ensures Run(d, evs) == d || d.t.cbws + [PendingCbw(d)] <= Run(d, evs).t.cbws
    decreases |evs|
  {
    assert Wf(d);
    hide Inv, Step;
    if evs != [] {
      var before, last := evs[..|evs| - 1], evs[|evs| - 1];
      NextCbw(m0, d, before);
      RunGrows(m0, d, before);
      StepGrows(m0, Run(d, before), last);
      WaitingStep(m0, d, last);
    }
  }

  lemma WaitingStep(m0: Media, d: Dev, ev: Event)
    requires Inv(m0, d) && CbwWaits(d)
    ensures Step(d, ev) == d || Step(d, ev).t.cbws == d.t.cbws + [PendingCbw(d)]
  {
    hide History, Poll, Correct;
    if ev.Polled? {
      PollDispatches(m0, d, ev.b);
    }
  }

  lemma {:induction false} ExplainedBefore(m0: Media, log: seq<Entry>, m: Media, locked: bool, i: nat)
    requires Explained(m0, log, m, locked) && i < |log|
    ensures Explained(m0, log[..i], log[i].before, locked)
    decreases |log|
  {
    hide Correct;
    var init, last := log[..|log| - 1], log[|log| - 1];
    if i < |init| {
      ExplainedBefore(m0, init, last.before, locked, i);
      assert init[..i] == log[..i] && init[i] == log[i];
    }
  }

  /** The medium a log ends in does not depend on who explains it. */
  lemma ExplainedOnce(m0: Media, log: seq<Entry>, m: Media, locked: bool, m': Media, locked': bool)
    requires Explained(m0, log, m, locked) && Explained(m0, log, m', locked')
    ensures m == m'
  {
  }

  /** The next entry finished after a CBW waits is that command's, and it started on the medium of now. */
  lemma NextEntry(m0: Media, d: Dev, evs: seq<Event>)
    requires Inv(m0, d) && CbwWaits(d) && Finishes(d, evs)
    ensures var r, i := Run(d, evs), |d.t.log|;
            && r.t.log[i].cbw == PendingCbw(d) && r.t.log[i].before == d.media
            && Correct(r.t.log[i], r.locked)
  {
    var r, i := Run(d, evs), |d.t.log|;
    RunGrows(m0, d, evs);
    NextCbw(m0, d, evs);
    assert TxFree(d) && !Pending(d);
    EntryFacts(m0, d, r);
    hide Run, Phase, Correct;
  }

  lemma EntryFacts(m0: Media, d: Dev, r: Dev)
    requires Inv(m0, d) && Inv(m0, r) && !Pending(d) && d.t.log <= r.t.log && |r.t.log| > |d.t.log|
    ensures var e := r.t.log[|d.t.log|];
            && |d.t.log| == |d.t.cbws| < |r.t.cbws| && e.cbw == r.t.cbws[|d.t.log|] && e.before == d.media
            && Correct(e, r.locked)
  {
    hide Phase, Correct, Links;
    var i, end := |d.t.log|, if Pending(r) then r.t.start else r.media;
    ExplainedBefore(m0, r.t.log, end, r.locked, i);
    ExplainedCorrect(m0, r.t.log, end, r.locked, i);
    assert r.t.log[..i] == d.t.log;
    ExplainedOnce(m0, d.t.log, d.media, d.locked, r.t.log[i].before, r.locked);
  }

  // ----- what is delivered of windows off the medium -----

  /** A storage answer of one byte over and over. */
  function Junk(x: byte): (r: seq<byte>)
    ensures |r| == 528 * BUFFER_BLOCK_MAX
  {
    seq(528 * BUFFER_BLOCK_MAX, _ => x)
  }

  predicate FilledAt(m: Media, cbw: Cbw, x: byte, data: seq<byte>, at: nat) {
    !WindowOn(m, cbw, at) ==> Size(KindOf(cbw[15]), at) < |data| && data[Size(KindOf(cbw[15]), at)] == x
  }

  /** Every window off the medium begins with x. */
  ghost predicate Filled(m: Media, cbw: Cbw, x: byte, data: seq<byte>) {
    forall at: nat :: WindowStart(at) && at < Whole(KindOf(cbw[15]), |data|) ==> FilledAt(m, cbw, x, data, at)
  }

  predicate RequestOn(m: Media, cbw: Cbw) {
    InRange(m, KindOf(cbw[15]), Offset(cbw), Sectors(cbw))
  }

  lemma FilledAppend(m: Media, cbw: Cbw, x: byte, data: seq<byte>)
    requires Filled(m, cbw, x, data) && Aligned(KindOf(cbw[15]), |data|) && WindowStart(Whole(KindOf(cbw[15]), |data|))
    requires Whole(KindOf(cbw[15]), |data|) < Sectors(cbw) && RequestOn(m, cbw) && Addressable(m)
    ensures var k, done := KindOf(cbw[15]), Whole(KindOf(cbw[15]), |data|);
            Filled(m, cbw, x, data + StorageRead(m, k, U32(Offset(cbw) + done), WindowLen(cbw, done), Junk(x)))
  {
    hide Filled, FilledAt, StorageRead, Size, Whole, Sectors, Offset, WindowStart, RequestOn, Addressable, Junk;
    hide InRange;
    var k, done := KindOf(cbw[15]), Whole(KindOf(cbw[15]), |data|);
    LastFilled(m, cbw, x, data);
    FilledOn(m, cbw, x, data, StorageRead(m, k, U32(Offset(cbw) + done), WindowLen(cbw, done), Junk(x)),
             WindowLen(cbw, done));
  }

  /** Windows that are filled and the one behind them. */
  lemma FilledOn(m: Media, cbw: Cbw, x: byte, data: seq<byte>, next: seq<byte>, n: nat)
    requires Filled(m, cbw, x, data) && Aligned(KindOf(cbw[15]), |data|) && WindowStart(Whole(KindOf(cbw[15]), |data|))
    requires |next| == Size(KindOf(cbw[15]), n) && n <= BUFFER_BLOCK_MAX
    requires FilledAt(m, cbw, x, data + next, Whole(KindOf(cbw[15]), |data|))
    ensures Filled(m, cbw, x, data + next)
  {
    hide WindowOn, WindowStart, Size, Whole;
    var k, done := KindOf(cbw[15]), Whole(KindOf(cbw[15]), |data|);
    BlockArithmetic(k, done, n);
    BlockArithmetic(k, done + n, 0);
    forall at: nat | WindowStart(at) && at < done + n
      ensures FilledAt(m, cbw, x, data + next, at)
    {
      if at < done {
        assert FilledAt(m, cbw, x, data, at);
        SizeGrows(k, at, done);
      } else {
        LastStart(done, at);
      }
    }
  }

  lemma SizeGrows(k: Kind, a: nat, b: nat)
    requires a < b
    ensures Size(k, a) < Size(k, b)
  {
  }

  lemma LastFilled(m: Media, cbw: Cbw, x: byte, data: seq<byte>)
    requires Aligned(KindOf(cbw[15]), |data|) && RequestOn(m, cbw) && Addressable(m)
    requires Whole(KindOf(cbw[15]), |data|) < Sectors(cbw)
    ensures var k, done := KindOf(cbw[15]), Whole(KindOf(cbw[15]), |data|);
            var next := StorageRead(m, k, U32(Offset(cbw) + done), WindowLen(cbw, done), Junk(x));
            FilledAt(m, cbw, x, data + next, done)
  {
    NoWrap(m, KindOf(cbw[15]), Offset(cbw) + Whole(KindOf(cbw[15]), |data|), 0);
  }

  /** A read under way of which every window off the medium has been answered with x. */
  ghost predicate Filling(d: Dev, x: byte)
    requires Wf(d)
  {
    && IsRead(d.cmnd) && (d.status == TxDataPrepare || d.status == Csw)
    && RequestOn(d.media, d.cbw) && Filled(d.media, d.cbw, x, d.t.fetched)
  }

  /** What the refill of a read puts into the next window. */
  lemma NextWindowIs(d: Dev, n: nat, b: Backend)
    requires Wf(d) && PhaseRead(d)
    ensures NextWindow(d, n, b)
         == StorageRead(d.media, KindOf(d.cbw[15]), U32(Offset(d.cbw) + DoneBlocks(d)), n, b.junk)
  {
  }

  /** Appending the next window to what has been fetched keeps it filled. */
  lemma NextWindowFills(d: Dev, n: nat, x: byte, b: Backend)
    requires Wf(d) && PhaseRead(d) && Addressable(d.media) && RequestOn(d.media, d.cbw) && b.junk == Junk(x)
    requires |d.t.fetched| == d.uBytes < d.uSize && WindowStart(DoneBlocks(d)) && n == WindowLen(d.cbw, DoneBlocks(d))
    requires Filled(d.media, d.cbw, x, d.t.fetched)
    ensures Filled(d.media, d.cbw, x, d.t.fetched + NextWindow(d, n, b))
  {
    hide Windows, Filled, Piped, NextWindow, Sectors, Offset, WindowStart, WindowLen, Addressable, RequestOn;
    NextWindowIs(d, n, b);
    FetchedBlocks(d);
    FilledAppend(d.media, d.cbw, x, d.t.fetched);
  }

  lemma FetchedBlocks(d: Dev)
    requires Wf(d) && PhaseRead(d) && |d.t.fetched| == d.uBytes < d.uSize
    ensures Whole(KindOf(d.cbw[15]), |d.t.fetched|) == DoneBlocks(d) < Sectors(d.cbw)
    ensures Aligned(KindOf(d.cbw[15]), |d.t.fetched|)
  {
    hide Windows, Piped, Sectors;
  }

  lemma LoadedPassFills(d: Dev, x: byte, b: Backend)
    requires Wf(d) && Links(d) && Loaded(d) && Addressable(d.media) && WindowStart(DoneBlocks(d))
    requires RequestOn(d.media, d.cbw) && Filled(d.media, d.cbw, x, d.t.fetched) && b.junk == Junk(x)
    ensures Filled(d.media, d.cbw, x, TxPass(d, b).t.fetched)
  {
    LoadedFacts(d);
    SentReady(d);
    LoadedPass(d, b);
    PassFrame(d, b);
    var e := SendChunk(d);
    ReadSizes(e);
    hide Links, Loaded, PhaseRead, WindowReady, CacheEmpty, SendChunk, TxPass, ChunkBlocks, Addressable, WindowStart;
    hide Filled, RequestOn, NextWindow, DoneBlocks, ChunkBytes;
    if TxPass(d, b).uBytes < e.uSize {
      NextWindowFills(e, ChunkBlocks(d), x, b);
    }
  }

  lemma ReadSizes(d: Dev)
    requires Wf(d) && PhaseRead(d)
    ensures d.uBytes == Size(KindOf(d.cmnd), DoneBlocks(d)) <= d.uSize
  {
    hide Windows, Piped, Sectors;
  }

  lemma FirstPassFills(d: Dev, x: byte, b: Backend)
    requires Wf(d) && Links(d) && PhaseTxDataPrepare(d) && Addressable(d.media) && d.uBytes == 0 < d.uSize
    requires RequestOn(d.media, d.cbw) && b.junk == Junk(x)
    ensures Filled(d.media, d.cbw, x, TxPass(d, b).t.fetched)
  {
    FirstPass(d, b);
    EmptyFilled(d.media, d.cbw, x);
    ChunkSizes(d);
    hide Windows, Filled, RequestOn, NextWindow, TxPass, Links, Loaded, Sectors, Piped, Addressable;
    assert d.t.fetched == [] && DoneBlocks(d) == 0;
    NextWindowFills(d, ChunkBlocks(d), x, b);
    assert [] + NextWindow(d, ChunkBlocks(d), b) == NextWindow(d, ChunkBlocks(d), b);
  }

  lemma EmptyFilled(m: Media, cbw: Cbw, x: byte)
    ensures Filled(m, cbw, x, [])
  {
  }

  /** A call of rkusb_handle_datatx keeps what it fetches filled. */
  lemma ReadCallFills(d: Dev, x: byte, b: Backend)
    requires Wf(d) && Links(d) && PhaseTxDataPrepare(d) && TxFree(d) && Addressable(d.media)
    requires d.status == TxDataPrepare && d.uBytes < d.uSize && Filling(d, x) && b.junk == Junk(x)
    ensures Filled(d.media, d.cbw, x, HandleDataTx(d, b).t.fetched)
  {
    hide Windows, Links, PhaseRead, WindowReady, WindowStart, NextWindow, Filled, RequestOn, TxPass, Loaded;
    hide Addressable, HandleDataTx;
    CallFetches(d, b);
    if d.uBytes == 0 {
      FirstPass(d, b);
      PassFrame(d, b);
      FirstPassFills(d, x, b);
      hide PhaseTxDataPrepare, Junk, DoneBlocks, ChunkBlocks;
      LoadedPassFills(TxPass(d, b), x, b);
    } else {
      WindowLoaded(d);
      LoadedPass(d, b);
      LoadedPassFills(d, x, b);
    }
  }

  lemma CallFetches(d: Dev, b: Backend)
    requires Wf(d)
    ensures var once := TxPass(d, b);
            HandleDataTx(d, b).t.fetched == if once.uBytes == 0 then TxPass(once, b).t.fetched else once.t.fetched
  {
    hide TxPass;
  }

  /** One poll of such a read: it stays one, or its CSW is queued and all it delivered is filled. */
  lemma PollFills(m0: Media, d: Dev, x: byte, b: Backend)
    requires Inv(m0, d) && Live(d) && Filling(d, x) && d.tx.xfer.None? && d.rx.xfer.None? && b.junk == Junk(x)
    ensures var r := Poll(d, b);
            && r.media == d.media && r.cbw == d.cbw
            && (Filling(r, x) || (r.status == Idle && Filled(d.media, d.cbw, x, r.t.toHost)))
  {
    if d.status == TxDataPrepare {
      hide History, HandleDataTx;
      assert Addressable(d.media) && PhaseTxDataPrepare(d);
      ReadCall(d, b);
      ReadFrame(d, b);
      ReadPosts(d, b);
      ReadCallFills(d, x, b);
      ReadBusy(d, b);
      hide Windows, Filled, PhaseRead, CallDone, WindowReady, RequestOn;
    } else {
      CswFills(d, x);
      hide History, Windows, Filled, RequestOn, Overlay, CswPacket;
    }
  }

  /** After a call that advances the CSW has to wait for the chunk. */
  lemma ReadBusy(d: Dev, b: Backend)
    requires Wf(d) && d.status == TxDataPrepare && TxFree(d) && HandleDataTx(d, b).tx.give.status == SendInProgress
    ensures Poll(d, b) == HandleDataTx(d, b)
  {
    hide HandleDataTx;
  }

  lemma CswFills(d: Dev, x: byte)
    requires Wf(d) && Links(d) && PhaseCsw(d) && TxFree(d) && Filling(d, x)
    ensures Filled(d.media, d.cbw, x, d.t.toHost)
  {
    assert InFlight(d) == [] && d.t.toHost + InFlight(d) == d.t.toHost;
    hide Windows, Buffers;
    FilledPrefix(d.media, d.cbw, x, d.t.fetched, d.uBytes);
  }

  lemma FilledPrefix(m: Media, cbw: Cbw, x: byte, data: seq<byte>, a: nat)
    requires Filled(m, cbw, x, data) && a <= |data|
    ensures Filled(m, cbw, x, data[..a])
  {
    var k := KindOf(cbw[15]);
    forall at: nat | WindowStart(at) && at < Whole(k, a)
      ensures FilledAt(m, cbw, x, data[..a], at)
    {
      assert at < Whole(k, |data|) && FilledAt(m, cbw, x, data, at);
    }
  }

  lemma RoundFills(m0: Media, d: Dev, x: byte, b: Backend)
    requires Inv(m0, d) && Live(d) && Filling(d, x) && b.junk == Junk(x)
    ensures Chunk(d, [])
    ensures var r := Round(d, [], b);
            && r.media == d.media && r.cbw == d.cbw
            && (Filling(r, x) || (r.status == Idle && Filled(d.media, d.cbw, x, r.t.toHost)))
  {
    DeliveredLive(m0, d, []);
    var e := Delivered(d, []);
    assert e.media == d.media && e.cbw == d.cbw && e.cmnd == d.cmnd && e.status == d.status
        && e.t.fetched == d.t.fetched;
    hide Inv, Live, Poll, Filled, RequestOn, Delivered;
    PollFills(m0, e, x, b);
  }

  /** Driving such a read to its end gives the host x at the start of every window off the medium. */
  lemma {:induction false} FillFinishes(m0: Media, d: Dev, x: byte, b: Backend) returns (evs: seq<Event>)
    requires Inv(m0, d) && Live(d) && Filling(d, x) && b.junk == Junk(x)
    ensures Finishes(d, evs) && Filled(d.media, d.cbw, x, Run(d, evs).t.log[|d.t.log|].toHost)
    decreases Rank(d)
  {
    RankPositive(m0, d);
    assert Wf(d);
    RoundFills(m0, d, x, b);
    var r, first := Round(d, [], b), RoundEvents(d, [], b);
    RoundMoves(m0, d, [], b);
    RoundIsRun(m0, d, [], b);
    RoundKeeps(m0, d, [], b);
    hide Inv, Live, Rank, Round, RoundEvents, Chunk, Finishes, Filled, Filling;
    var rest := [TxDone];
    if r.status == Idle {
      CswArrives(m0, r);
      CswEntry(m0, r);
    } else {
      rest := FillFinishes(m0, r, x, b);
    }
    FinishesLater(d, first, rest);
    RunSplit(d, first, rest);
    evs := first + rest;
  }

  // ----- exactly which reads deliver the medium -----

  /** If the command of the waiting CBW finishes in this run, the host has the blocks it asked for. */
  predicate DeliversMedium(d: Dev, evs: seq<Event>)
    requires Wf(d) && CbwWaits(d) && RequestOn(d.media, PendingCbw(d))
  {
    var cbw, i := PendingCbw(d), |d.t.log|;
    Finishes(d, evs) ==> Run(d, evs).t.log[i].toHost == Blocks(d.media, KindOf(cbw[15]), Offset(cbw), Sectors(cbw))
  }

  /** For a read of blocks that are on the medium: in every run, whatever the storage answers to requests off the
      medium, the host gets exactly those blocks if it gets a CSW -- if and only if every window is on the medium,
      the over-long last one included. */
  lemma ReadExactIff(m0: Media, d: Dev)
    requires Inv(m0, d) && CbwWaits(d)
    requires IsRead(PendingCbw(d)[15]) && Sectors(PendingCbw(d)) > 0 && RequestOn(d.media, PendingCbw(d))
    ensures (forall evs :: DeliversMedium(d, evs)) <==> ReadFits(d.media, PendingCbw(d))
  {
    var cbw := PendingCbw(d);
    if ReadFits(d.media, cbw) {
      forall evs ensures DeliversMedium(d, evs) {
        if Finishes(d, evs) {
          NextEntry(m0, d, evs);
          FitsDelivers(Run(d, evs).t.log[|d.t.log|], Run(d, evs).locked);
        }
      }
    } else {
      var evs := WrongRun(m0, d);
    }
  }

  lemma FitsDelivers(e: Entry, locked: bool)
    requires Correct(e, locked) && IsRead(e.cbw[15]) && ReadFits(e.before, e.cbw)
    ensures RequestOn(e.before, e.cbw)
    ensures e.toHost == Blocks(e.before, KindOf(e.cbw[15]), Offset(e.cbw), Sectors(e.cbw))
  {
    hide Windows, ReadFits, Sectors, Offset, Blocks;
    ReadExact(e);
  }

  /** A read with a window off the medium, and a run in which the storage's answer to it reaches the host. */
  lemma WrongRun(m0: Media, d: Dev) returns (evs: seq<Event>)
    requires Inv(m0, d) && CbwWaits(d)
    requires IsRead(PendingCbw(d)[15]) && Sectors(PendingCbw(d)) > 0 && RequestOn(d.media, PendingCbw(d))
    requires !ReadFits(d.media, PendingCbw(d))
    ensures !DeliversMedium(d, evs)
  {
    var cbw := PendingCbw(d);
    var k, want := KindOf(cbw[15]), Blocks(d.media, KindOf(cbw[15]), Offset(cbw), Sectors(cbw));
    var at := FirstOff(d.media, cbw);
    BlockArithmetic(k, at, Sectors(cbw) - at);
    var x: byte := if want[Size(k, at)] == 0 then 1 else 0;
    var b := d.t.answer.(junk := Junk(x));
    StartsFilling(m0, d, x, b);
    RunOne(d, Polled(b));
    var e := Poll(d, b);
    hide Inv, Poll, Filling, Live, Filled, RequestOn, ReadFits, Run;
    var rest := FillFinishes(m0, e, x, b);
    FinishesLater(d, [Polled(b)], rest);
    RunSplit(d, [Polled(b)], rest);
    evs := [Polled(b)] + rest;
    WrongByte(d.media, cbw, x, Run(d, evs).t.log[|d.t.log|].toHost, at, want);
  }

  lemma FirstOff(m: Media, cbw: Cbw) returns (at: nat)
    requires Sectors(cbw) > 0 && !ReadFits(m, cbw)
    ensures WindowStart(at) && at < Sectors(cbw) && !WindowOn(m, cbw, at)
  {
    ReadFitsIff(m, cbw);
    at :| WindowStart(at) && at < Sectors(cbw) && !WindowOn(m, cbw, at);
  }

  /** Dispatching the read. */
  lemma StartsFilling(m0: Media, d: Dev, x: byte, b: Backend)
    requires Inv(m0, d) && CbwWaits(d) && b.junk == Junk(x)
    requires IsRead(PendingCbw(d)[15]) && Sectors(PendingCbw(d)) > 0 && RequestOn(d.media, PendingCbw(d))
    ensures var e := Poll(d, b);
            && Inv(m0, e) && Live(e) && Filling(e, x)
            && e.t.log == d.t.log && e.media == d.media && e.cbw == PendingCbw(d)
  {
    var f := Dispatch(d, b);
    DispatchInv(m0, d, b);
    DispatchLive(m0, d, b);
    DispatchFrame(d, b);
    DispatchedRead(d, b);
    SamePoll(d, b);
    EmptyFilled(d.media, f.cbw, x);
    PollDispatches(m0, d, b);
    PollInv(m0, d, b);
    hide Inv, Live, Dispatch, Poll, Filled, RequestOn;
    ReadMoves(m0, f, b);
    PollFills(m0, f, x, b);
    LiveNotIdle(Poll(f, b));
  }

  lemma LiveNotIdle(d: Dev)
    ensures Live(d) ==> d.status != Idle
  {
  }

  lemma DispatchedRead(d: Dev, b: Backend)
    requires Wf(d) && d.rx.give.actual > 0 && IsRead(PendingCbw(d)[15])
    ensures var f := Dispatch(d, b);
            && f.status == TxDataPrepare && f.cbw == PendingCbw(d) && f.cmnd == f.cbw[15] && f.media == d.media
            && f.t.fetched == []
  {
  }

  lemma WrongByte(m: Media, cbw: Cbw, x: byte, data: seq<byte>, at: nat, want: seq<byte>)
    requires Filled(m, cbw, x, data) && WindowStart(at) && at < Sectors(cbw) && !WindowOn(m, cbw, at)
    requires |want| == Size(KindOf(cbw[15]), Sectors(cbw))
    requires Size(KindOf(cbw[15]), at) < |want| && want[Size(KindOf(cbw[15]), at)] != x
    ensures data != want
  {
    hide Sectors, WindowOn;
    if |data| == |want| {
      BlockArithmetic(KindOf(cbw[15]), Sectors(cbw), 0);
      assert FilledAt(m, cbw, x, data, at);
    }
  }

  /** 129 blocks read from a medium of 129 blocks: a run from the configured engine that ends with a CSW reporting
      success and wrong data. */
  lemma Read129(m0: Media, d: Dev, cbw: Cbw) returns (evs: seq<Event>)
    requires Configured(d, m0) && |m0.lba| == 129 * 512
    requires cbw[15] == LBA_READ_10 && Offset(cbw) == 0 && Sectors(cbw) == 129
    ensures InRange(m0, Lba, 0, 129)
    ensures var log := Run(d, evs).t.log;
            && |log| > 0 && log[0].cbw == cbw && log[0].csw == CswPacket(cbw, Good(cbw))
            && log[0].toHost != Blocks(m0, Lba, 0, 129)
  {
    FirstCbw(m0, d, cbw);
    RunOne(d, RxDone(cbw));
    var e := Step(d, RxDone(cbw));
    hide Inv, Step, Run, Configured;
    evs := WrongRun(m0, e);
    RunSplit(d, [RxDone(cbw)], evs);
    NextEntry(m0, e, evs);
    ReadReport(Run(e, evs).t.log[0], Run(e, evs).locked);
    evs := [RxDone(cbw)] + evs;
  }

  lemma ReadReport(e: Entry, locked: bool)
    requires Correct(e, locked) && IsRead(e.cbw[15])
    ensures e.csw == CswPacket(e.cbw, Good(e.cbw))
  {
    hide Windows, CswPacket;
  }

  // ----- how many calls a read takes -----

  /** This poll calls rkusb_handle_datatx. */
  predicate Calls(d: Dev, ev: Event)
    requires Wf(d)
  {
    && ev.Polled?
    && var e := if CbwWaits(d) then Dispatch(d, ev.b) else d;
       e.status == TxDataPrepare && (e.uBytes == 0 || TxFree(e))
  }

  function CountCalls(d: Dev, evs: seq<Event>): nat
    requires Wf(d)
    decreases |evs|
  {
    if evs == [] then 0
    else
      var before, last := evs[..|evs| - 1], evs[|evs| - 1];
      CountCalls(d, before) + if Calls(Run(d, before), last) then 1 else 0
  }

  /** The state of the read with this CBW after so many calls, as long as it is the last command dispatched. */
  ghost predicate CallsLeft(r: Dev, cbw: Cbw, calls: int) {
    && Wf(r)
    && match r.status
       case TxDataPrepare =>
         r.cbw == cbw && r.uBytes < r.uSize && calls + CallsFor(BlocksLeft(r)) == CallsFor(Sectors(cbw))
       case Csw => calls == CallsFor(Sectors(cbw))
       case Idle => calls == CallsFor(Sectors(cbw))
       case _ => false
  }

  lemma ReadCallStep(m0: Media, d: Dev, cbw: Cbw, calls: int, ev: Event)
    requires Inv(m0, d) && CallsLeft(d, cbw, calls) && !CbwWaits(d)
    ensures CallsLeft(Step(d, ev), cbw, calls + if Calls(d, ev) then 1 else 0)
  {
    if Enabled(d, ev) && ev.Polled? {
      if d.status == TxDataPrepare {
        CallStep(m0, d, cbw, calls, ev.b);
      } else {
        hide History, Windows, Correct, CallsFor, Overlay, CswPacket;
      }
    } else {
      hide Poll, History, Windows, Correct, CallsFor, Sectors;
    }
  }

  lemma CallStep(m0: Media, d: Dev, cbw: Cbw, calls: int, b: Backend)
    requires Inv(m0, d) && CallsLeft(d, cbw, calls) && d.status == TxDataPrepare
    ensures CallsLeft(Poll(d, b), cbw, calls + if Calls(d, Polled(b)) then 1 else 0)
  {
    hide CallsFor, HandleDataTx;
    if TxFree(d) {
      ReadCallsCountDown(m0, d, b);
      ReadFrame(d, b);
      ReadPosts(d, b);
      StillReading(m0, d, b);
      ReadBusy(d, b);
      NoneOut(m0, d);
    } else {
      ReadWaits(m0, d, b);
    }
    hide Inv, Poll, BlocksLeft, Wf;
  }

  lemma NoneOut(m0: Media, d: Dev)
    requires Inv(m0, d) && d.status == TxDataPrepare && TxFree(d)
    ensures d.tx.xfer.None? && !CbwWaits(d) && Wf(d)
  {
    hide Phase, History;
  }

  lemma ReadWaits(m0: Media, d: Dev, b: Backend)
    requires Inv(m0, d) && d.status == TxDataPrepare && !TxFree(d)
    ensures Poll(d, b) == d && !Calls(d, Polled(b))
  {
    hide Windows, History, HandleDataTx;
  }

  lemma StillReading(m0: Media, d: Dev, b: Backend)
    requires Inv(m0, d) && d.status == TxDataPrepare && TxFree(d) && d.uBytes < d.uSize
    ensures var r := HandleDataTx(d, b);
            && r.uBytes > d.uBytes && (r.status == Csw || (r.status == TxDataPrepare && r.uBytes < r.uSize))
  {
    assert Addressable(d.media);
    ReadCall(d, b);
    ReadFrame(d, b);
    ReadSizes(d);
    ReadSizes(HandleDataTx(d, b));
    hide History, Windows, HandleDataTx, Links, Piped, WindowReady;
  }

  /** The poll that dispatches the read makes the first call. */
  lemma FirstCall(m0: Media, d: Dev, b: Backend)
    requires Inv(m0, d) && CbwWaits(d) && IsRead(PendingCbw(d)[15]) && Sectors(PendingCbw(d)) > 0
    ensures Calls(d, Polled(b)) && CallsLeft(Poll(d, b), PendingCbw(d), 1)
  {
    var f := Dispatch(d, b);
    DispatchInv(m0, d, b);
    DispatchedRead(d, b);
    DispatchFrame(d, b);
    SamePoll(d, b);
    FreshCount(m0, d, b);
    hide Inv, Dispatch, Poll, CallsFor;
    CallStep(m0, f, PendingCbw(d), 0, b);
  }

  lemma FreshCount(m0: Media, d: Dev, b: Backend)
    requires Inv(m0, d) && CbwWaits(d) && IsRead(PendingCbw(d)[15]) && Sectors(PendingCbw(d)) > 0
    ensures var f := Dispatch(d, b); CallsLeft(f, PendingCbw(d), 0) && f.uBytes == 0
  {
    hide History, Windows, Correct;
  }

  /** A read of n blocks takes exactly ceil(n / 128) calls of rkusb_handle_datatx: in every run, once the read is in
      status CSW or its CSW is queued, that many calls have been made; before, each call still due is counted. */
  lemma {:induction false} ReadTakesCalls(m0: Media, d: Dev, evs: seq<Event>)
    requires Inv(m0, d) && CbwWaits(d) && IsRead(PendingCbw(d)[15]) && Sectors(PendingCbw(d)) > 0
    ensures |Run(d, evs).t.cbws| == |d.t.cbws| ==> Run(d, evs) == d && CountCalls(d, evs) == 0
    ensures |Run(d, evs).t.cbws| == |d.t.cbws| + 1 ==> CallsLeft(Run(d, evs), PendingCbw(d), CountCalls(d, evs))
    decreases |evs|
  {
    assert Wf(d);
    hide Inv, Step, CallsLeft, Calls;
    if evs != [] {
      var before, last := evs[..|evs| - 1], evs[|evs| - 1];
      var s := Run(d, before);
      ReadTakesCalls(m0, d, before);
      RunGrows(m0, d, before);
      StepGrows(m0, s, last);
      NextCbw(m0, d, before);
      CallsGoOn(m0, d, s, last, CountCalls(d, before));
    }
  }

  lemma CallsGoOn(m0: Media, d: Dev, s: Dev, ev: Event, calls: nat)
    requires Inv(m0, d) && CbwWaits(d) && IsRead(PendingCbw(d)[15]) && Sectors(PendingCbw(d)) > 0 && Inv(m0, s)
    requires |s.t.cbws| == |d.t.cbws| ==> s == d && calls == 0
    requires |s.t.cbws| == |d.t.cbws| + 1 ==> CallsLeft(s, PendingCbw(d), calls)
    ensures var r, made := Step(s, ev), calls + if Calls(s, ev) then 1 else 0;
            && (|s.t.cbws| == |d.t.cbws| == |r.t.cbws| ==> r == d && made == 0)
            && (|d.t.cbws| <= |s.t.cbws| && |r.t.cbws| == |d.t.cbws| + 1 ==> CallsLeft(r, PendingCbw(d), made))
  {
    hide Inv, Poll, CallsLeft, Dispatch;
    InvWf(m0, s);
    InvWf(m0, d);
    StepGrows(m0, s, ev);
    if CbwWaits(s) {
      WaitingStep(m0, s, ev);
      if ev.Polled? {
        PollDispatches(m0, s, ev.b);
        if s == d {
          FirstCall(m0, d, ev.b);
        }
      }
    } else if |s.t.cbws| == |d.t.cbws| + 1 {
      ReadCallStep(m0, s, PendingCbw(d), calls, ev);
    }
  }
}
