/** Progress of the RockUSB engine: which commands come back with a CSW, exactly which get stuck, and when the
    engine takes no more commands. */
module RockusbProgress {
  import opened Bytes
  import opened BlockStore
  import opened RockusbModel
  import opened RockusbInvariant
  import opened RockusbTheorems

  /** Opcodes do_rockusb_cmd knows. */
  predicate Recognised(op: byte) {
    IsRead(op) || IsWrite(op) || ReplySize(op) > 0 || IsPlain(op)
  }

  /** Bytes a write still misses. */
  function Missing(d: Dev): int {
    d.dSize - d.dBytes - d.rx.give.actual
  }

  /** Too few for the engine to ask for: it asks for whole blocks. */
  predicate TooFew(k: Kind, missing: int) {
    0 < missing && Whole(k, missing) == 0
  }

  /** The command under way can still be finished: no transfer of it has failed, its opcode is known, it is not a
      read of no blocks, and a write misses nothing or at least one block (FinishesIff). */
  predicate CanFinish(d: Dev) {
    && d.tx.give.status != SendFinishedError
    && match d.status
       case Cmd => false
       case TxDataPrepare => d.uSize > 0
       case RxData => d.rx.give.status != RecvError && !TooFew(KindOf(d.cmnd), Missing(d))
       case _ => true
  }

  /** Such a command in its data or status phase, unless its last completion was an empty one. */
  predicate Live(d: Dev) {
    d.status != Idle && CanFinish(d) && (d.status == RxData && d.rx.give.status == RecvOk ==> d.rx.give.actual > 0)
  }

  /** Bytes still to move first, then the stage, then whether a transfer is out. */
  function Rank(d: Dev): int {
    var out := if d.tx.xfer.Some? || d.rx.xfer.Some? then 1 else 0;
    match d.status
    case Idle => 0
    case Cmd => 0
    case Csw => 1 + out
    case TxData => 3
    case TxDataPrepare => 2 * (d.uSize - d.uBytes) + 2 + out
    case RxData => 2 * (d.dSize - d.dBytes) + 1 + out
    case RxDataPrepare => 2 * (d.dSize - d.dBytes) + 3
  }

  /** The host can supply this chunk: not empty, no more than asked for, and leaving nothing or at least a block. */
  predicate Chunk(d: Dev, data: seq<byte>) {
    d.status == RxData && d.rx.xfer.Some? ==>
      0 < |data| <= d.rx.xfer.value.len && !TooFew(KindOf(d.cmnd), Missing(d) - |data|)
  }

  /** The outstanding transfer, if any, completes well. */
  function Delivered(d: Dev, data: seq<byte>): (r: Dev)
    requires Wf(d) && Chunk(d, data)
    ensures Wf(r)
  {
    if d.tx.xfer.Some? then CompleteTx(d)
    else if d.status == RxData && d.rx.xfer.Some? then CompleteRx(d, data)
    else d
  }

  /** A round: the outstanding transfer completes, then the loop goes round once. */
  function Round(d: Dev, data: seq<byte>, b: Backend): Dev
    requires Wf(d) && Chunk(d, data)
  {
    Poll(Delivered(d, data), b)
  }

  /** A live write always asks for at least one block, so the host can go on. */
  lemma ChunkAvailable(m0: Media, d: Dev)
    requires Inv(m0, d) && Live(d)
    ensures exists data :: Chunk(d, data)
  {
    if d.status == RxData && d.rx.xfer.Some? {
      hide History, Sectors, Landed;
      var n := GoodCut(KindOf(d.cmnd), Missing(d));
      assert Chunk(d, Zeros(n));
    } else {
      assert Chunk(d, []);
    }
  }

  /** Odd bytes first, whole blocks after. */
  lemma GoodCut(k: Kind, missing: nat) returns (n: nat)
    requires missing > 0 && !TooFew(k, missing)
    ensures 0 < n <= WantBytes(k, missing) && n <= missing && !TooFew(k, missing - n)
  {
    if Aligned(k, missing) {
      n := WantBytes(k, missing);
    } else {
      n := missing - Size(k, Whole(k, missing));
    }
  }

  lemma DeliveredFields(d: Dev, data: seq<byte>)
    requires Wf(d) && Links(d) && Chunk(d, data) && Live(d) && (d.status == RxData ==> d.tx.xfer.None?)
    ensures var e := Delivered(d, data);
            Live(e) && e.tx.xfer.None? && e.rx.xfer.None? && Rank(e) <= Rank(d)
  {
  }

  lemma DeliveredLive(m0: Media, d: Dev, data: seq<byte>)
    requires Inv(m0, d) && Live(d) && Chunk(d, data)
    ensures var e := Delivered(d, data);
            && Inv(m0, e) && Live(e) && e.tx.xfer.None? && e.rx.xfer.None?
            && Rank(e) <= Rank(d)
  {
    assert d.status == RxData ==> d.tx.xfer.None? by {
      hide History, Landed;
    }
    hide Phase, History, CompleteTx, CompleteRx;
    if d.tx.xfer.Some? {
      StepInv(m0, d, TxDone);
    } else if d.status == RxData && d.rx.xfer.Some? {
      StepInv(m0, d, RxDone(data));
    }
    DeliveredFields(d, data);
  }

  /** With nothing outstanding a poll moves a live command on. */
  lemma PollMoves(m0: Media, d: Dev, b: Backend)
    requires Inv(m0, d) && Live(d) && d.tx.xfer.None? && d.rx.xfer.None?
    ensures Poll(d, b).status == Idle || (Live(Poll(d, b)) && Rank(Poll(d, b)) < Rank(d))
  {
    hide History;
    match d.status
    case Csw => CswMoves(d);
    case TxData => TxDataMoves(d, b);
    case TxDataPrepare => ReadMoves(m0, d, b);
    case _ => WriteMoves(m0, d, b);
  }

  lemma CswMoves(d: Dev)
    requires Wf(d) && Links(d) && d.status == Csw && Live(d) && d.tx.xfer.None?
    ensures SendCsw(d).status == Idle
  {
    hide Overlay, CswPacket;
  }

  lemma TxDataMoves(d: Dev, b: Backend)
    requires Wf(d) && d.status == TxData && Live(d)
    ensures var r := Poll(d, b); Live(r) && Rank(r) < Rank(d)
  {
  }

  lemma ReadMoves(m0: Media, d: Dev, b: Backend)
    requires Inv(m0, d) && Live(d) && d.status == TxDataPrepare && d.tx.xfer.None? && d.rx.xfer.None?
    ensures var r := Poll(d, b); Live(r) && Rank(r) < Rank(d)
  {
    hide History, Windows, HandleDataTx;
    ReadCall(d, b);
    ReadFrame(d, b);
    ChunkSizes(d);
    var r := HandleDataTx(d, b);
    assert r.uBytes > d.uBytes;
    ReadPosts(d, b);
  }

  /** A call that advances has a transfer in flight when it returns. */
  lemma ReadPosts(d: Dev, b: Backend)
    requires Wf(d) && d.tx.xfer.None?
    ensures HandleDataTx(d, b).uBytes > d.uBytes ==> HandleDataTx(d, b).tx.give.status == SendInProgress
  {
    hide StorageRead, Overlay, ChunkBlocks, ChunkBytes, Size, Whole;
  }

  /** What asking for more, or finishing, does to the fields progress depends on. */
  lemma AskMoves(d: Dev)
    requires Wf(d) && TxFree(d)
    ensures var r := AskOrFinish(d);
            if d.dBytes < d.dSize then
              r == d.(rx := r.rx, status := RxData) && r.rx.xfer.Some? && r.rx.give == RxGiveback(RecvReady, 0, None)
            else r.status == Idle
  {
    hide Overlay, CswPacket, Size, Whole;
  }

  /** A write to which rkusb_handle_datarx is called, with what it misses worth asking for. */
  predicate WriteDue(d: Dev) {
    && Wf(d) && TxFree(d) && d.tx.xfer.None? && d.rx.xfer.None? && !TooFew(KindOf(d.cmnd), Missing(d))
    && ((d.status == RxData && d.rx.give.status == RecvOk && d.rx.give.actual > 0)
        || (d.status == RxDataPrepare && d.rx.give.actual == 0))
  }

  lemma WriteRound(d: Dev, b: Backend)
    requires WriteDue(d)
    ensures var r := Poll(d, b); r.status == Idle || (Live(r) && Rank(r) < Rank(d))
  {
    hide Aligned, AskOrFinish, Flush, TooFew, Buffers, HandleDataTx, Dispatch, SendCsw;
    var c := Counted(d);
    assert |Received(d)| == d.rx.give.actual;
    hide Received;
    AskMoves(c);
    FlushSize(AskOrFinish(c), Received(d), b);
  }

  lemma WriteMoves(m0: Media, d: Dev, b: Backend)
    requires Inv(m0, d) && Live(d) && (d.status == RxData || d.status == RxDataPrepare) && d.rx.xfer.None?
    ensures var r := Poll(d, b); r.status == Idle || (Live(r) && Rank(r) < Rank(d))
  {
    WriteEnough(m0, d);
    hide Inv, Live, Rank, Poll;
    WriteRound(d, b);
  }

  lemma WriteEnough(m0: Media, d: Dev)
    requires Inv(m0, d) && Live(d) && (d.status == RxData || d.status == RxDataPrepare) && d.rx.xfer.None?
    ensures WriteDue(d)
  {
    hide Landed, Sectors, History;
    BlockArithmetic(KindOf(d.cmnd), Sectors(d.cbw), 0);
  }

  /** Each round of a live command ends it or brings it nearer its end. */
  lemma RoundMoves(m0: Media, d: Dev, data: seq<byte>, b: Backend)
    requires Inv(m0, d) && Live(d) && Chunk(d, data)
    ensures var r := Round(d, data, b);
            Inv(m0, r) && (r.status == Idle || (Live(r) && Rank(r) < Rank(d)))
  {
    DeliveredLive(m0, d, data);
    var e := Delivered(d, data);
    hide Inv, Live, Poll, Rank;
    PollMoves(m0, e, b);
    PollInv(m0, e, b);
  }

  ghost predicate RoundTo(d: Dev, r: Dev) {
    Wf(d) && exists data, b :: Chunk(d, data) && r == Round(d, data, b)
  }

  /** The same from the k-th state on. */
  lemma {:induction false} IdleFrom(m0: Media, ds: seq<Dev>, k: nat)
    requires k < |ds| && Inv(m0, ds[k]) && Live(ds[k]) && |ds| - k > Rank(ds[k])
    requires forall i :: 0 <= i < |ds| - 1 ==> RoundTo(ds[i], ds[i + 1])
    ensures exists i :: 0 <= i < |ds| && ds[i].status == Idle
    decreases |ds| - k
  {
    RankPositive(m0, ds[k]);
    hide Inv, Live, Rank, Poll, Delivered, Chunk, Wf;
    assert RoundTo(ds[k], ds[k + 1]);
    var data, b :| Chunk(ds[k], data) && ds[k + 1] == Round(ds[k], data, b);
    RoundMoves(m0, ds[k], data, b);
    hide RoundTo;
    if ds[k + 1].status != Idle {
      IdleFrom(m0, ds, k + 1);
    }
  }

  /** Progress: however the host cuts its data, as long as no cut leaves less than a block, a live command is back
      in status Idle after fewer rounds than its rank. */
  lemma ReturnsToIdle(m0: Media, ds: seq<Dev>)
    requires |ds| > 0 && Inv(m0, ds[0]) && Live(ds[0]) && |ds| > Rank(ds[0])
    requires forall i :: 0 <= i < |ds| - 1 ==> RoundTo(ds[i], ds[i + 1])
    ensures exists i :: 0 <= i < |ds| && ds[i].status == Idle
  {
    hide Inv, Live, Rank, RoundTo;
    IdleFrom(m0, ds, 0);
  }

  lemma RankPositive(m0: Media, d: Dev)
    requires Inv(m0, d) && Live(d)
    ensures Rank(d) > 0
  {
    hide History, Landed;
  }

  // ----- exactly which commands can be finished -----

  /** A completion of a write, of any non-empty length, keeps the command live exactly when it leaves nothing or at
      least one block to come. */
  lemma ChunkExactIff(m0: Media, d: Dev, data: seq<byte>)
    requires Inv(m0, d) && d.status == RxData && d.rx.xfer.Some? && 0 < |data| <= d.rx.xfer.value.len
    ensures Chunk(d, data) <==> CanFinish(CompleteRx(d, data))
    ensures Chunk(d, data) <==> Live(CompleteRx(d, data))
  {
    hide History, Landed, Sectors, Overlay;
  }

  /** The status has not changed, and nothing has been recorded: no CBW, no CSW, no data. */
  predicate SameRecord(d: Dev, r: Dev) {
    r.status == d.status && r.t == d.t
  }

  /** A stuck command stays stuck, and nothing is recorded about it any more: no CSW, no data. */
  lemma StuckStep(m0: Media, d: Dev, ev: Event)
    requires Inv(m0, d) && Pending(d) && !CanFinish(d)
    ensures var r := Step(d, ev); Pending(r) && !CanFinish(r) && SameRecord(d, r)
  {
    if Enabled(d, ev) {
      match ev
      case Polled(b) => StuckPoll(m0, d, b);
      case RxDone(data) => StuckReceive(m0, d, data);
      case _ =>
        hide History, Landed, Windows, Correct, Poll, Overlay;
    }
  }

  lemma StuckReceive(m0: Media, d: Dev, data: seq<byte>)
    requires Inv(m0, d) && Pending(d) && !CanFinish(d) && Enabled(d, RxDone(data))
    ensures var r := CompleteRx(d, data); Pending(r) && !CanFinish(r) && SameRecord(d, r)
  {
    hide History, Landed, Windows, Correct, Overlay, Sectors;
    if d.status == RxData {
      assert data == [];
      assert WholeBlocks(KindOf(d.cmnd), []) == [] && d.t.kept + [] == d.t.kept && d.t.fromHost + [] == d.t.fromHost;
    }
  }

  lemma StuckPoll(m0: Media, d: Dev, b: Backend)
    requires Inv(m0, d) && Pending(d) && !CanFinish(d)
    ensures var r := Poll(d, b); Pending(r) && !CanFinish(r) && SameRecord(d, r)
  {
    hide History, Landed, Windows, Correct, HandleDataTx;
    if d.status == RxData {
      StuckShort(m0, d, b);
    } else if d.status == TxDataPrepare {
      hide HandleDataRx;
      if d.uSize == 0 {
        SpinningPass(d, b);
        HangsHere(d, b);
      }
    }
    hide HandleDataRx;
  }

  lemma HangsHere(d: Dev, b: Backend)
    requires Wf(d) && TxPass(d, b) == d && d.uBytes == 0
    ensures HandleDataTx(d, b) == d
  {
    hide TxPass;
  }

  lemma StuckShort(m0: Media, d: Dev, b: Backend)
    requires Inv(m0, d) && d.status == RxData && !CanFinish(d)
    ensures var r := Poll(d, b); r.status == RxData && !CanFinish(r) && SameRecord(d, r)
  {
    hide History, Landed, Windows, Overlay, CswPacket, Sectors;
    if d.rx.give.status == RecvOk {
      StuckAsks(d);
      FlushSize(AskOrFinish(Counted(d)), Received(d), b);
    }
    hide Flush, AskOrFinish, TooFew;
  }

  /** The engine asks for zero bytes. */
  lemma StuckAsks(d: Dev)
    requires Wf(d) && d.tx.give.status != SendFinishedError && TooFew(KindOf(d.cmnd), Missing(d))
    ensures var r := AskOrFinish(Counted(d));
            && r == Counted(d).(rx := r.rx, status := RxData)
            && r.rx.give == RxGiveback(RecvReady, 0, None) && r.rx.xfer.Some? && r.rx.xfer.value.len == 0
            && Missing(r) == Missing(d)
  {
    hide Aligned;
  }

  lemma {:induction false} StuckForever(m0: Media, d: Dev, evs: seq<Event>)
    requires Inv(m0, d) && Pending(d) && !CanFinish(d)
    ensures var r := Run(d, evs); Inv(m0, r) && Pending(r) && !CanFinish(r) && SameRecord(d, r)
    decreases |evs|
  {
    assert Wf(d);
    hide Inv, Pending, CanFinish, Step;
    if evs != [] {
      var before, last := evs[..|evs| - 1], evs[|evs| - 1];
      StuckForever(m0, d, before);
      StepInv(m0, Run(d, before), last);
      StuckStep(m0, Run(d, before), last);
    }
  }

  // ----- states that never change again -----

  /** Nothing is outstanding and no handler does anything: an unknown opcode, a read of no blocks, a failed bulk-in
      transfer in a read or before a CSW, a failed bulk-out transfer in a write, or status Idle with no receive
      posted. */
  predicate Halted(d: Dev)
    requires Wf(d)
  {
    && d.tx.xfer.None? && d.rx.xfer.None?
    && match d.status
       case Cmd => true
       case TxDataPrepare =>
         if d.uBytes == 0 then d.uSize == 0 && CacheEmpty(d) else d.tx.give.status == SendFinishedError
       case Csw => d.tx.give.status == SendFinishedError
       case RxData => d.rx.give.status == RecvError
       case Idle => d.rx.give.actual == 0
       case _ => false
  }

  lemma HaltedStays(d: Dev, b: Backend)
    requires Wf(d) && Halted(d)
    ensures Poll(d, b) == d
  {
    hide TxPass, HandleDataRx;
    if d.status == TxDataPrepare && d.uBytes == 0 {
      SpinningPass(d, b);
    }
  }

  /** A halted engine never changes again. */
  lemma {:induction false} HaltedForever(d: Dev, evs: seq<Event>)
    requires Wf(d) && Halted(d)
    ensures Run(d, evs) == d
    decreases |evs|
  {
    if evs != [] {
      var last := evs[|evs| - 1];
      HaltedForever(d, evs[..|evs| - 1]);
      if last.Polled? {
        HaltedStays(d, last.b);
      }
    }
  }

  /** With nothing outstanding a stuck command has halted the engine, but for a write that misses too few bytes: that
      one asks for zero bytes again and again. */
  lemma StuckHalts(m0: Media, d: Dev)
    requires Inv(m0, d) && Pending(d) && !CanFinish(d) && d.tx.xfer.None? && d.rx.xfer.None?
    ensures Halted(d) || (d.status == RxData && TooFew(KindOf(d.cmnd), Missing(d)))
  {
    hide History, Landed, Windows, Correct, TooFew;
  }

  // ----- a run that finishes -----

  /** No poll makes a transfer fail. */
  lemma PollGood(d: Dev, b: Backend)
    requires Wf(d) && d.tx.give.status != SendFinishedError
    ensures Poll(d, b).tx.give.status != SendFinishedError
  {
    var e := if CbwWaits(d) then Dispatch(d, b) else d;
    hide Dispatch, Respond, SendCsw;
    if CbwWaits(d) {
      DispatchGood(d, b);
    }
    RespondGood(e, b);
    SendGood(Respond(e, b));
  }

  lemma DispatchGood(d: Dev, b: Backend)
    requires Wf(d) && d.rx.give.actual > 0
    ensures Dispatch(d, b).tx.give == d.tx.give
  {
    hide Overlay, Exactly, Left, Buffers, Size, MayOverlap;
  }

  lemma SendGood(d: Dev)
    requires Wf(d) && d.tx.give.status != SendFinishedError
    ensures SendCsw(d).tx.give.status != SendFinishedError
  {
    hide Overlay, CswPacket;
  }

  lemma RespondGood(d: Dev, b: Backend)
    requires Wf(d) && d.tx.give.status != SendFinishedError
    ensures Respond(d, b).tx.give.status != SendFinishedError
  {
    hide TxPass, Flush, AskOrFinish, SendCsw, PostOut;
    if d.status == TxDataPrepare {
      PassGood(d, b);
      PassGood(TxPass(d, b), b);
    } else if d.status == RxData || d.status == RxDataPrepare {
      AskGood(Counted(d));
      FlushSize(AskOrFinish(Counted(d)), Received(d), b);
    }
  }

  lemma PassGood(d: Dev, b: Backend)
    requires Wf(d) && d.tx.give.status != SendFinishedError
    ensures TxPass(d, b).tx.give.status != SendFinishedError
  {
    hide StorageRead, Overlay, ChunkBlocks, ChunkBytes, Size, Whole;
  }

  lemma AskGood(d: Dev)
    requires Wf(d) && d.tx.give.status != SendFinishedError
    ensures AskOrFinish(d).tx.give.status != SendFinishedError
  {
    hide Overlay, CswPacket, Size, Whole;
  }

  /** The events of a round. */
  function RoundEvents(d: Dev, data: seq<byte>, b: Backend): seq<Event> {
    if d.tx.xfer.Some? then [TxDone, Polled(b)]
    else if d.status == RxData && d.rx.xfer.Some? then [RxDone(data), Polled(b)]
    else [Polled(b)]
  }

  lemma RunOne(d: Dev, ev: Event)
    requires Wf(d)
    ensures Run(d, [ev]) == Step(d, ev)
  {
    hide Step;
    assert [ev][..0] == [];
    assert Run(d, []) == d;
  }

  lemma RunTwo(d: Dev, a: Event, b: Event)
    requires Wf(d)
    ensures Run(d, [a, b]) == Step(Step(d, a), b)
  {
    hide Step;
    RunOne(d, a);
    assert [a, b][..1] == [a];
  }

  lemma RoundIsRun(m0: Media, d: Dev, data: seq<byte>, b: Backend)
    requires Inv(m0, d) && Live(d) && Chunk(d, data)
    ensures Run(d, RoundEvents(d, data, b)) == Round(d, data, b)
  {
    hide Phase, History, CompleteTx, CompleteRx, Poll, Live;
    RunOne(d, Polled(b));
    RunTwo(d, TxDone, Polled(b));
    RunTwo(d, RxDone(data), Polled(b));
  }

  /** A round neither dispatches nor finishes a command, and what it leaves in status Idle is a queued CSW. */
  lemma RoundKeeps(m0: Media, d: Dev, data: seq<byte>, b: Backend)
    requires Inv(m0, d) && Live(d) && Chunk(d, data)
    ensures var r := Round(d, data, b);
            && r.t.cbws == d.t.cbws && r.t.log == d.t.log
            && Pending(r) && r.tx.give.status != SendFinishedError
  {
    DeliveredLive(m0, d, data);
    DeliveredKeeps(d, data);
    var e := Delivered(d, data);
    RoundMoves(m0, d, data, b);
    PollDispatches(m0, e, b);
    PollGood(e, b);
    PendingCount(m0, d);
    PendingCount(m0, Round(d, data, b));
    hide Inv, Chunk, Delivered, Poll;
  }

  lemma DeliveredKeeps(d: Dev, data: seq<byte>)
    requires Wf(d) && Live(d) && Chunk(d, data)
    ensures var e := Delivered(d, data);
            e.t.cbws == d.t.cbws && e.t.log == d.t.log && e.tx.give.status != SendFinishedError && !CbwWaits(e)
    ensures Pending(d)
  {
  }

  lemma PendingCount(m0: Media, d: Dev)
    requires Inv(m0, d)
    ensures Pending(d) <==> |d.t.log| < |d.t.cbws|
  {
    hide Phase;
  }

  /** The command under way gets its CSW to the host in this run. */
  predicate Finishes(d: Dev, evs: seq<Event>)
    requires Wf(d)
  {
    |Run(d, evs).t.log| > |d.t.log|
  }

  /** A queued CSW that is still in flight. */
  lemma CswArrives(m0: Media, d: Dev)
    requires Inv(m0, d) && d.status == Idle && Pending(d) && d.tx.give.status != SendFinishedError
    ensures Finishes(d, [TxDone])
  {
    hide Phase, History;
    RunOne(d, TxDone);
  }

  /** The entry a delivered CSW closes holds what was delivered. */
  lemma CswEntry(m0: Media, d: Dev)
    requires Inv(m0, d) && d.status == Idle && Pending(d) && d.tx.give.status != SendFinishedError
    ensures Finishes(d, [TxDone])
    ensures var e := Run(d, [TxDone]).t.log[|d.t.log|];
            e.toHost == d.t.toHost && e.fromHost == d.t.fromHost && e.kept == d.t.kept && e.cbw == d.cbw
  {
    hide Phase, History;
    RunOne(d, TxDone);
  }

  /** Running on from where a run has led. */
  lemma FinishesLater(d: Dev, a: seq<Event>, b: seq<Event>)
    requires Wf(d) && Run(d, a).t.log == d.t.log && Finishes(Run(d, a), b)
    ensures Finishes(d, a + b)
  {
    RunSplit(d, a, b);
    hide Run;
  }

  /** From every live command some run finishes it. */
  lemma {:induction false} LiveFinishes(m0: Media, d: Dev) returns (evs: seq<Event>)
    requires Inv(m0, d) && Live(d)
    ensures Finishes(d, evs)
    decreases Rank(d)
  {
    RankPositive(m0, d);
    assert Wf(d);
    ChunkAvailable(m0, d);
    var data :| Chunk(d, data);
    var b := d.t.answer;
    var r, first := Round(d, data, b), RoundEvents(d, data, b);
    RoundMoves(m0, d, data, b);
    RoundIsRun(m0, d, data, b);
    RoundKeeps(m0, d, data, b);
    hide Inv, Live, Rank, Round, RoundEvents, Chunk, Finishes;
    var rest := [TxDone];
    if r.status == Idle {
      CswArrives(m0, r);
    } else {
      rest := LiveFinishes(m0, r);
    }
    FinishesLater(d, first, rest);
    evs := first + rest;
  }

  /** After an empty completion the engine asks again. */
  lemma EmptyAsksAgain(m0: Media, d: Dev, b: Backend)
    requires Inv(m0, d) && CanFinish(d) && d.status == RxData && d.rx.give.status == RecvOk && d.rx.give.actual == 0
    ensures Inv(m0, Poll(d, b)) && Live(Poll(d, b)) && Poll(d, b).t.log == d.t.log
  {
    PollInv(m0, d, b);
    PollDispatches(m0, d, b);
    assert Received(d) == [];
    hide History, Landed, Sectors;
    AskMoves(Counted(d));
    FlushSize(AskOrFinish(Counted(d)), Received(d), b);
    hide Flush, AskOrFinish, TooFew, Aligned;
  }

  lemma EmptyFinishes(m0: Media, d: Dev) returns (evs: seq<Event>)
    requires Inv(m0, d) && CanFinish(d) && d.status != Idle && !Live(d)
    ensures Finishes(d, evs)
  {
    var b := d.t.answer;
    EmptyAsksAgain(m0, d, b);
    InvWf(m0, d);
    RunOne(d, Polled(b));
    hide Inv, Poll, Finishes, Run;
    evs := LiveFinishes(m0, Poll(d, b));
    FinishesLater(d, [Polled(b)], evs);
    evs := [Polled(b)] + evs;
  }

  /** From any reachable state a command under way can still get its CSW to the host exactly when CanFinish says so;
      otherwise it is stuck for good (StuckForever). */
  lemma FinishesIff(m0: Media, d: Dev)
    requires Inv(m0, d) && Pending(d)
    ensures (exists evs :: Finishes(d, evs)) <==> CanFinish(d)
  {
    InvWf(m0, d);
    hide Inv, Pending;
    if CanFinish(d) {
      hide CanFinish, Live, Finishes, Poll;
      if d.status == Idle {
        CswArrives(m0, d);
      } else if Live(d) {
        var evs := LiveFinishes(m0, d);
      } else {
        var evs := EmptyFinishes(m0, d);
      }
    } else {
      forall evs ensures !Finishes(d, evs) {
        StuckForever(m0, d, evs);
      }
    }
  }

  lemma DispatchLive(m0: Media, d: Dev, b: Backend)
    requires Inv(m0, d) && CbwWaits(d)
    ensures var cbw, e := PendingCbw(d), Dispatch(d, b);
            && e.status != Idle && e.tx.xfer.None? && e.rx.xfer.None? && e.tx.give.status != SendFinishedError
            && if Recognised(cbw[15]) && (IsRead(cbw[15]) ==> Sectors(cbw) > 0) then Live(e)
               else Halted(e) && !CanFinish(e) && (e.status == TxDataPrepare ==> IsRead(cbw[15]) && Sectors(cbw) == 0)
  {
    TakenInv(m0, d, b);
    hide Inv, Wf;
    FreshLive(d, b);
  }

  lemma FreshLive(d: Dev, b: Backend)
    requires Wf(d) && d.rx.give.actual > 0 && Fresh(Taken(d, b))
    ensures var cbw, e := PendingCbw(d), Dispatch(d, b);
            && e.status != Idle && e.tx.xfer.None? && e.rx.xfer.None? && e.tx.give.status != SendFinishedError
            && if Recognised(cbw[15]) && (IsRead(cbw[15]) ==> Sectors(cbw) > 0) then Live(e)
               else Halted(e) && !CanFinish(e) && (e.status == TxDataPrepare ==> IsRead(cbw[15]) && Sectors(cbw) == 0)
  {
    DispatchFields(d, b);
    hide Dispatch, Buffers, Wf, IsRead, IsWrite, IsPlain, ReplySize;
  }

  lemma DispatchFields(d: Dev, b: Backend)
    requires Wf(d) && d.rx.give.actual > 0
    ensures var e, r := Taken(d, b), Dispatch(d, b);
            && r.status == (if ReplySize(e.cmnd) > 0 then TxData else if IsRead(e.cmnd) then TxDataPrepare
                            else if IsWrite(e.cmnd) then RxDataPrepare else if IsPlain(e.cmnd) then Csw else Cmd)
            && r.tx.xfer == e.tx.xfer && r.rx.xfer == e.rx.xfer && r.tx.give == e.tx.give && r.cmnd == e.cmnd
            && (r.status == TxDataPrepare ==>
                  r.uBytes == 0 && r.uSize == Size(KindOf(e.cmnd), Sectors(e.cbw)) && r.pre == e.pre)
  {
    hide Overlay, Exactly, Left, Buffers, MayOverlap, Wf, Residue, Sectors, Size;
  }

  /** A command that is dispatched can be finished exactly when its opcode is known and it is not a read of zero
      blocks. */
  lemma DispatchGoesOnIff(m0: Media, d: Dev, b: Backend)
    requires Inv(m0, d) && CbwWaits(d)
    ensures var cbw, r := PendingCbw(d), Poll(d, b);
            && Inv(m0, r) && Pending(r)
            && (CanFinish(r) <==> Recognised(cbw[15]) && (IsRead(cbw[15]) ==> Sectors(cbw) > 0))
            && (!CanFinish(r) ==> Halted(r))
  {
    PollInv(m0, d, b);
    DispatchInv(m0, d, b);
    var e := Dispatch(d, b);
    DispatchLive(m0, d, b);
    PollDispatches(m0, d, b);
    PendingCount(m0, d);
    PendingCount(m0, Poll(d, b));
    SamePoll(d, b);
    hide Inv, Dispatch, Poll, Live, CanFinish, Halted;
    if Recognised(PendingCbw(d)[15]) && (IsRead(PendingCbw(d)[15]) ==> Sectors(PendingCbw(d)) > 0) {
      PollMoves(m0, e, b);
      PollGood(e, b);
      LiveCanFinish(Poll(e, b));
    } else {
      DispatchPending(m0, d, b);
      StuckPoll(m0, e, b);
      HaltedStays(e, b);
    }
  }

  lemma SamePoll(d: Dev, b: Backend)
    requires Wf(d) && CbwWaits(d) && Dispatch(d, b).status != Idle
    ensures Poll(d, b) == Poll(Dispatch(d, b), b)
  {
    hide Dispatch, Respond, SendCsw;
  }

  lemma LiveCanFinish(d: Dev)
    ensures Live(d) ==> CanFinish(d)
    ensures d.status == Idle && d.tx.give.status != SendFinishedError ==> CanFinish(d)
  {
  }

  lemma DispatchPending(m0: Media, d: Dev, b: Backend)
    requires Inv(m0, d) && CbwWaits(d)
    ensures Pending(Dispatch(d, b))
  {
    DispatchFrame(d, b);
  }

  // ----- between commands -----

  /** The engine takes another command in this run. */
  predicate Accepts(d: Dev, evs: seq<Event>)
    requires Wf(d)
  {
    |Run(d, evs).t.cbws| > |d.t.cbws|
  }

  /** Between commands the engine takes another one exactly when a CBW waits or a receive for one is posted; after an
      empty or failed completion in place of a CBW it changes no more, whatever happens. */
  lemma AcceptsIff(m0: Media, d: Dev)
    requires Inv(m0, d) && !Pending(d)
    ensures (exists evs :: Accepts(d, evs)) <==> CbwWaits(d) || d.rx.xfer.Some?
    ensures !CbwWaits(d) && d.rx.xfer.None? ==> forall evs :: Run(d, evs) == d
  {
    var b := d.t.answer;
    if CbwWaits(d) {
      PollAccepts(m0, d, b);
      assert Accepts(d, [Polled(b)]);
    } else if d.rx.xfer.Some? {
      ReceiveAccepts(m0, d, b);
      assert Accepts(d, [RxDone(Zeros(CBW_LEN)), Polled(b)]);
    } else {
      DeadHalts(m0, d);
      forall evs ensures Run(d, evs) == d {
        HaltedForever(d, evs);
      }
    }
  }

  /** A CBW that arrives at the configured engine. */
  lemma FirstCbw(m0: Media, d: Dev, cbw: Cbw)
    requires Configured(d, m0)
    ensures var e := Step(d, RxDone(cbw));
            && Enabled(d, RxDone(cbw)) && Inv(m0, e) && CbwWaits(e) && PendingCbw(e) == cbw
            && e.media == m0 && e.t == d.t && !Pending(e)
  {
    ConfiguredInv(d, m0);
    StepInv(m0, d, RxDone(cbw));
    hide Inv, Buffers;
  }

  lemma DeadHalts(m0: Media, d: Dev)
    requires Inv(m0, d) && !Pending(d) && !CbwWaits(d) && d.rx.xfer.None?
    ensures Halted(d)
  {
    hide History, Correct;
  }

  lemma PollAccepts(m0: Media, d: Dev, b: Backend)
    requires Inv(m0, d) && CbwWaits(d)
    ensures Accepts(d, [Polled(b)])
  {
    hide Inv, Poll;
    assert Wf(d) by {
      InvWf(m0, d);
    }
    PollDispatches(m0, d, b);
    RunOne(d, Polled(b));
  }

  lemma ReceiveAccepts(m0: Media, d: Dev, b: Backend)
    requires Inv(m0, d) && !Pending(d) && d.rx.xfer.Some?
    ensures Accepts(d, [RxDone(Zeros(CBW_LEN)), Polled(b)])
  {
    hide History, Correct, Poll;
    var e := CompleteRx(d, Zeros(CBW_LEN));
    CbwInv(m0, d, Zeros(CBW_LEN));
    RunTwo(d, RxDone(Zeros(CBW_LEN)), Polled(b));
    PollDispatches(m0, e, b);
  }
}
