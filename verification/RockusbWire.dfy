/** What a host and its medium see of the RockUSB engine, in the numbers of the wire: opcodes, byte offsets of the
    command block and the CSW, block sizes. Nothing here speaks of the engine's own tables. */
module RockusbWire {
  import opened Bytes
  import opened BlockStore
  import opened RockusbModel
  import opened RockusbInvariant
  import opened RockusbTheorems
  import opened RockusbProgress
  import opened RockusbReads

  // ----- the pieces a write's data came in -----

  /** For each command dispatched in a run, the completions that brought its write data. */
  function Pieces(d: Dev, evs: seq<Event>): seq<seq<seq<byte>>>
    requires Wf(d)
    decreases |evs|
  {
    if evs == [] then [] else MorePieces(Pieces(d, evs[..|evs| - 1]), Run(d, evs[..|evs| - 1]), evs[|evs| - 1])
  }

  function MorePieces(ps: seq<seq<seq<byte>>>, d: Dev, ev: Event): seq<seq<seq<byte>>> {
    if ev.Polled? && CbwWaits(d) then ps + [[]]
    else if ev.RxDone? && d.status == RxData && Enabled(d, ev) && ps != [] then
      ps[..|ps| - 1] + [ps[|ps| - 1] + [ev.data]]
    else ps
  }

  function Joined(pieces: seq<seq<byte>>): seq<byte> {
    if pieces == [] then [] else Joined(pieces[..|pieces| - 1]) + pieces[|pieces| - 1]
  }

  /** The pieces joined, each cut to a multiple of `block` bytes. */
  function CutJoined(pieces: seq<seq<byte>>, block: nat): seq<byte>
    requires block == 512 || block == 528
  {
    if pieces == [] then []
    else CutJoined(pieces[..|pieces| - 1], block) + Cut(pieces[|pieces| - 1], block)
  }

  function Cut(piece: seq<byte>, block: nat): seq<byte>
    requires block == 512 || block == 528
  {
    if block == 512 then piece[..|piece| / 512 * 512] else piece[..|piece| / 528 * 528]
  }

  /** Bytes of a block of the space a write goes to. */
  function BlockOf(op: byte): nat {
    if op == 0x05 then 528 else 512
  }

  /** What is recorded as from the host are these pieces, and as kept their whole blocks. */
  predicate Brought(pieces: seq<seq<byte>>, op: byte, from: seq<byte>, kept: seq<byte>) {
    from == Joined(pieces) && kept == CutJoined(pieces, BlockOf(op))
  }

  predicate PiecesFit(ps: seq<seq<seq<byte>>>, d: Dev) {
    && |ps| == |d.t.cbws| && |d.t.log| <= |ps|
    && (forall i :: 0 <= i < |d.t.log| ==> Brought(ps[i], d.t.log[i].cbw[15], d.t.log[i].fromHost, d.t.log[i].kept))
    && (Pending(d) ==> |ps| > 0 && Brought(ps[|ps| - 1], d.cbw[15], d.t.fromHost, d.t.kept))
  }

  lemma JoinedMore(pieces: seq<seq<byte>>, data: seq<byte>, block: nat)
    requires block == 512 || block == 528
    ensures Joined(pieces + [data]) == Joined(pieces) + data
    ensures CutJoined(pieces + [data], block) == CutJoined(pieces, block) + Cut(data, block)
  {
    hide Cut;
    assert (pieces + [data])[..|pieces|] == pieces;
  }

  /** A poll begins a record or leaves it alone. */
  lemma PollRecord(d: Dev, b: Backend)
    requires Wf(d)
    ensures var r := Poll(d, b);
            if CbwWaits(d) then r.t.fromHost == [] && r.t.kept == [] && r.cbw == PendingCbw(d)
            else r.t.fromHost == d.t.fromHost && r.t.kept == d.t.kept && r.cbw == d.cbw
  {
    var e := if CbwWaits(d) then Dispatch(d, b) else d;
    hide Dispatch, Respond, SendCsw;
    if CbwWaits(d) {
      DispatchRecord(d, b);
    }
    RespondRecord(e, b);
    SendRecord(Respond(e, b));
  }

  lemma DispatchRecord(d: Dev, b: Backend)
    requires Wf(d) && d.rx.give.actual > 0
    ensures var r := Dispatch(d, b); r.t.fromHost == [] && r.t.kept == [] && r.cbw == PendingCbw(d)
  {
    hide Overlay, Exactly, Left, Buffers, Size;
  }

  lemma RespondRecord(d: Dev, b: Backend)
    requires Wf(d)
    ensures var r := Respond(d, b); r.t.fromHost == d.t.fromHost && r.t.kept == d.t.kept && r.cbw == d.cbw
  {
    hide HandleDataTx, Flush, AskOrFinish;
    if d.status == TxDataPrepare {
      ReadFrame(d, b);
    } else if d.status == RxData || d.status == RxDataPrepare {
      AskFrame(Counted(d));
      FlushSize(AskOrFinish(Counted(d)), Received(d), b);
    }
  }

  lemma SendRecord(d: Dev)
    requires Wf(d)
    ensures var r := SendCsw(d); r.t.fromHost == d.t.fromHost && r.t.kept == d.t.kept && r.cbw == d.cbw
  {
    hide Overlay, CswPacket;
  }

  lemma StepFits(m0: Media, ps: seq<seq<seq<byte>>>, d: Dev, ev: Event)
    requires Inv(m0, d) && PiecesFit(ps, d)
    ensures PiecesFit(MorePieces(ps, d, ev), Step(d, ev))
  {
    hide Inv, PiecesFit, Poll, CompleteRx, CompleteTx, Wf;
    InvWf(m0, d);
    if Enabled(d, ev) {
      match ev
      case Polled(b) => PollFits(m0, ps, d, b);
      case RxDone(data) => ReceiveFits(m0, ps, d, data);
      case TxDone => SentFits(m0, ps, d);
      case _ =>
        FailedPends(m0, d);
        SameFits(ps, d, Step(d, ev));
    }
  }

  lemma FailedPends(m0: Media, d: Dev)
    requires Inv(m0, d)
    ensures d.tx.xfer.Some? ==> Pending(d)
    ensures d.status == RxData ==> Pending(d) && IsWrite(d.cbw[15]) && d.cmnd == d.cbw[15]
  {
    hide History, Landed;
  }

  lemma PollFits(m0: Media, ps: seq<seq<seq<byte>>>, d: Dev, b: Backend)
    requires Inv(m0, d) && Wf(d) && PiecesFit(ps, d)
    ensures PiecesFit(MorePieces(ps, d, Polled(b)), Poll(d, b))
  {
    hide Inv, Wf, Poll, PiecesFit, PendingCbw;
    PollInv(m0, d, b);
    PollDispatches(m0, d, b);
    PollRecord(d, b);
    PendingCount(m0, d);
    PendingCount(m0, Poll(d, b));
    var r := Poll(d, b);
    if CbwWaits(d) {
      WaitingCount(m0, d);
      BeginFits(ps, d, r);
    } else {
      SameFits(ps, d, r);
    }
  }

  lemma WaitingCount(m0: Media, d: Dev)
    requires Inv(m0, d) && CbwWaits(d)
    ensures |d.t.log| == |d.t.cbws|
  {
    hide Explained, Correct;
  }

  /** A record begins. */
  lemma BeginFits(ps: seq<seq<seq<byte>>>, d: Dev, r: Dev)
    requires PiecesFit(ps, d) && r.t.log == d.t.log && |r.t.cbws| == |d.t.cbws| + 1
    requires r.t.fromHost == [] && r.t.kept == []
    ensures PiecesFit(ps + [[]], r)
  {
    NothingBrought(r.cbw[15]);
    hide Brought, Pending;
  }

  /** Nothing is recorded. */
  lemma SameFits(ps: seq<seq<seq<byte>>>, d: Dev, r: Dev)
    requires PiecesFit(ps, d) && r.t.log == d.t.log && |r.t.cbws| == |d.t.cbws| && r.cbw == d.cbw
    requires r.t.fromHost == d.t.fromHost && r.t.kept == d.t.kept && (Pending(r) ==> Pending(d))
    ensures PiecesFit(ps, r)
  {
    hide Brought, Pending;
  }

  lemma NothingBrought(op: byte)
    ensures Brought([], op, [], [])
  {
  }

  lemma ReceiveFits(m0: Media, ps: seq<seq<seq<byte>>>, d: Dev, data: seq<byte>)
    requires Inv(m0, d) && Wf(d) && PiecesFit(ps, d) && Enabled(d, RxDone(data))
    ensures PiecesFit(MorePieces(ps, d, RxDone(data)), CompleteRx(d, data))
  {
    hide Inv, Wf, PiecesFit, WholeBlocks, Overlay;
    FailedPends(m0, d);
    if d.status == RxData {
      LastPends(m0, d);
      CutIs(d.cbw[15], data);
      GrowFits(ps, d, CompleteRx(d, data), data);
    } else {
      SameFits(ps, d, CompleteRx(d, data));
    }
  }

  /** A record grows by a piece. */
  lemma GrowFits(ps: seq<seq<seq<byte>>>, d: Dev, r: Dev, data: seq<byte>)
    requires PiecesFit(ps, d) && Pending(d) && r.t.log == d.t.log && |r.t.cbws| == |d.t.cbws| && r.cbw == d.cbw
    requires r.t.fromHost == d.t.fromHost + data && r.t.kept == d.t.kept + Cut(data, BlockOf(d.cbw[15]))
    requires |d.t.log| < |d.t.cbws|
    ensures ps != [] && PiecesFit(ps[..|ps| - 1] + [ps[|ps| - 1] + [data]], r)
  {
    hide Pending, Cut;
    JoinedMore(ps[|ps| - 1], data, BlockOf(d.cbw[15]));
    assert Brought(ps[|ps| - 1] + [data], d.cbw[15], r.t.fromHost, r.t.kept);
    hide Brought;
  }

  lemma CutIs(op: byte, data: seq<byte>)
    requires IsWrite(op)
    ensures WholeBlocks(KindOf(op), data) == Cut(data, BlockOf(op))
  {
  }

  lemma SentFits(m0: Media, ps: seq<seq<seq<byte>>>, d: Dev)
    requires Inv(m0, d) && Wf(d) && PiecesFit(ps, d) && d.tx.xfer.Some?
    ensures PiecesFit(MorePieces(ps, d, TxDone), CompleteTx(d))
  {
    hide Inv, Wf, PiecesFit, InFlight;
    FailedPends(m0, d);
    LastPends(m0, d);
    if d.status == Idle {
      EndFits(ps, d, CompleteTx(d));
    } else {
      SameFits(ps, d, CompleteTx(d));
    }
  }

  /** A record ends in a log entry. */
  lemma EndFits(ps: seq<seq<seq<byte>>>, d: Dev, r: Dev)
    requires PiecesFit(ps, d) && Pending(d) && |d.t.log| + 1 == |d.t.cbws| == |r.t.cbws| && !Pending(r)
    requires |r.t.log| == |d.t.log| + 1 && r.t.log[..|d.t.log|] == d.t.log
    requires var e := r.t.log[|d.t.log|]; e.cbw == d.cbw && e.fromHost == d.t.fromHost && e.kept == d.t.kept
    ensures PiecesFit(ps, r)
  {
    hide Brought, Pending;
    forall i | 0 <= i < |r.t.log|
      ensures Brought(ps[i], r.t.log[i].cbw[15], r.t.log[i].fromHost, r.t.log[i].kept)
    {
      if i < |d.t.log| {
        assert r.t.log[i] == d.t.log[i];
      }
    }
  }

  lemma LastPends(m0: Media, d: Dev)
    requires Inv(m0, d) && Pending(d)
    ensures |d.t.log| + 1 == |d.t.cbws|
  {
    hide Phase, Links;
  }

  /** In every run: the i-th finished command's record of data from the host is the completions that came while it was
      under way, in order, and the kept part their whole blocks. */
  lemma {:induction false} RunPieces(m0: Media, d: Dev, evs: seq<Event>)
    requires Configured(d, m0)
    ensures PiecesFit(Pieces(d, evs), Run(d, evs))
    decreases |evs|
  {
    if evs != [] {
      var before, last := evs[..|evs| - 1], evs[|evs| - 1];
      RunPieces(m0, d, before);
      RunInv(m0, d, before);
      hide Inv, Step, PiecesFit, Configured;
      StepFits(m0, Pieces(d, before), Run(d, before), last);
    }
  }

  // ----- reads and writes -----

  /** The address and the block count of a command block, both big-endian. */
  function Address(cbw: Cbw): int {
    cbw[17] as int * 0x100_0000 + cbw[18] as int * 0x1_0000 + cbw[19] as int * 0x100 + cbw[20] as int
  }

  function Count(cbw: Cbw): int {
    cbw[22] as int * 256 + cbw[23] as int
  }

  lemma FieldsAre(cbw: Cbw)
    ensures Offset(cbw) == Address(cbw) >= 0 && Sectors(cbw) == Count(cbw) >= 0
  {
  }

  /** Blocks fetched for a read of n: up to 128 as many, else in windows of 128. */
  function Fetched(n: int): int {
    if n <= 128 then n else (n + 127) / 128 * 128
  }

  lemma ReadEntry(e: Entry, locked: bool)
    requires Correct(e, locked) && IsRead(e.cbw[15])
    ensures var k, o, n := KindOf(e.cbw[15]), Offset(e.cbw), Sectors(e.cbw);
            && e.after == e.before && e.fromHost == [] && |e.toHost| == Size(k, n)
            && (Size(k, o + Reach(n)) <= |Space(e.before, k)| ==>
                  InRange(e.before, k, o, n) && e.toHost == Blocks(e.before, k, o, n))
  {
    hide Windows, Sectors, Offset, Blocks, Answers, CswPacket, Size;
    if ReadFits(e.before, e.cbw) {
      ReadExact(e);
    }
  }

  /** A read with opcode 0x04 has sent exactly the 528-byte pages asked for, one with 0x14 the 512-byte logical blocks,
      if the blocks fetched are on the medium; in any case as many bytes, and the medium is as before. */
  predicate SentBlocks(e: Entry) {
    var o, n, m := Address(e.cbw), Count(e.cbw), e.before;
    && (e.cbw[15] == 0x04 || e.cbw[15] == 0x14 ==> e.after == m)
    && (e.cbw[15] == 0x04 ==>
          && |e.toHost| == 528 * n
          && (528 * (o + Fetched(n)) <= |m.pba| ==>
                528 * (o + n) <= |m.pba| && 0 <= o <= o + n && e.toHost == m.pba[528 * o..528 * (o + n)]))
    && (e.cbw[15] == 0x14 ==>
          && |e.toHost| == 512 * n
          && (512 * (o + Fetched(n)) <= |m.lba| ==>
                512 * (o + n) <= |m.lba| && 0 <= o <= o + n && e.toHost == m.lba[512 * o..512 * (o + n)]))
  }

  lemma ReadInNumbers(e: Entry, locked: bool)
    requires Correct(e, locked)
    ensures SentBlocks(e)
  {
    hide Correct, Offset, Sectors, Address, Count;
    FieldsAre(e.cbw);
    if e.cbw[15] == 0x04 || e.cbw[15] == 0x14 {
      ReadEntry(e, locked);
    }
  }

  /** In every run every finished read has sent the blocks of the numbers in its command block. */
  lemma RunReads(m0: Media, d: Dev, evs: seq<Event>, i: nat)
    requires Configured(d, m0) && i < |Run(d, evs).t.log|
    ensures SentBlocks(Run(d, evs).t.log[i])
  {
    RunEntriesCorrect(m0, d, evs);
    ReadInNumbers(Run(d, evs).t.log[i], Run(d, evs).locked);
  }

  lemma WriteEntry(e: Entry, locked: bool)
    requires Correct(e, locked) && IsWrite(e.cbw[15])
    ensures var k, o, n := KindOf(e.cbw[15]), Offset(e.cbw), Sectors(e.cbw);
            && e.toHost == [] && |e.fromHost| == Size(k, n) && |e.kept| <= |e.fromHost|
            && (locked ==> e.after == e.before)
            && (!locked && Size(k, o + n) <= |Space(e.before, k)| ==>
                  && Size(k, o) + |e.kept| <= |Space(e.before, k)|
                  && e.after == Stored(e.before, k, o, e.kept))
  {
    hide Sectors, Offset, Answers, CswPacket, Size, Stored;
  }

  /** A write of the bytes `data`, of which `x` were stored: with opcode 0x05 from page o on, with 0x15 from logical
      block o on, if it lies on the medium and the engine is not locked; nothing else has changed. */
  predicate StoredBlocks(e: Entry, locked: bool, data: seq<byte>, x: seq<byte>) {
    var o, n, m := Address(e.cbw), Count(e.cbw), e.before;
    && (e.cbw[15] == 0x05 ==>
          && |x| <= |data| == 528 * n
          && (locked ==> e.after == m)
          && (!locked && 0 <= o && 528 * (o + n) <= |m.pba| ==>
                e.after == Media(m.lba, m.pba[..528 * o] + x + m.pba[528 * o + |x|..])))
    && (e.cbw[15] == 0x15 ==>
          && |x| <= |data| == 512 * n
          && (locked ==> e.after == m)
          && (!locked && 0 <= o && 512 * (o + n) <= |m.lba| ==>
                e.after == Media(m.lba[..512 * o] + x + m.lba[512 * o + |x|..], m.pba)))
  }

  lemma WriteInNumbers(e: Entry, locked: bool)
    requires Correct(e, locked)
    ensures StoredBlocks(e, locked, e.fromHost, e.kept)
  {
    hide Correct, Offset, Sectors, Address, Count;
    FieldsAre(e.cbw);
    if e.cbw[15] == 0x05 || e.cbw[15] == 0x15 {
      WriteEntry(e, locked);
    }
  }

  lemma {:induction false} CutShorter(pieces: seq<seq<byte>>, block: nat)
    requires block == 512 || block == 528
    ensures |CutJoined(pieces, block)| <= |Joined(pieces)|
    ensures (forall p :: p in pieces ==> |p| % block == 0) ==> CutJoined(pieces, block) == Joined(pieces)
    decreases |pieces|
  {
    if pieces != [] {
      var init, last := pieces[..|pieces| - 1], pieces[|pieces| - 1];
      assert last in pieces && forall p :: p in init ==> p in pieces;
      CutShorter(init, block);
    }
  }

  /** In every run every finished write has stored its pieces, each cut to whole blocks of 528 (0x05) or 512 (0x15)
      bytes; if every piece is whole blocks that is all the data sent. */
  lemma RunWrites(m0: Media, d: Dev, evs: seq<Event>, i: nat)
    requires Configured(d, m0) && i < |Run(d, evs).t.log|
    ensures i < |Pieces(d, evs)|
    ensures var e, ps := Run(d, evs).t.log[i], Pieces(d, evs)[i];
            var block := if e.cbw[15] == 0x05 then 528 else 512;
            && StoredBlocks(e, d.locked, Joined(ps), CutJoined(ps, block))
            && ((forall p :: p in ps ==> |p| % block == 0) ==> CutJoined(ps, block) == Joined(ps))
  {
    RunEntriesCorrect(m0, d, evs);
    RunLock(d, evs);
    RunPieces(m0, d, evs);
    var e, ps := Run(d, evs).t.log[i], Pieces(d, evs)[i];
    hide Run, Pieces, Correct, Configured, Address, Count, Joined, CutJoined;
    WriteInNumbers(e, d.locked);
    CutShorter(ps, BlockOf(e.cbw[15]));
  }

  // ----- the other commands, and every CSW -----

  predicate Known(op: byte) {
    op == 0x00 || op == 0x01 || op == 0x03 || op == 0x04 || op == 0x05 || op == 0x06 || op == 0x0b || op == 0x14 ||
    op == 0x15 || op == 0x16 || op == 0x1a || op == 0x1b || op == 0x1c || op == 0x1e || op == 0xff
  }

  /** Commands other than reads and writes send exactly their reply and take no data. Erases (0x06, 0x0b) of an unlocked
      engine and the two commands that enable a format leave the medium the back end answers; of the others only the
      writes (0x05, 0x15) change it. */
  predicate Replied(e: Entry, locked: bool) {
    var op := e.cbw[15];
    && Known(op)
    && (op == 0x01 && |e.answer.id| == 5 ==> e.toHost == e.answer.id)
    && (op == 0x03 ==> |e.toHost| == 64 && forall k :: 0 <= k < 64 ==> e.toHost[k] == 0)
    && (op == 0x1a && |e.answer.info| == 11 ==> e.toHost == e.answer.info)
    && (op == 0x1b && |e.answer.chip| == 16 ==> e.toHost == e.answer.chip)
    && (op != 0x01 && op != 0x03 && op != 0x04 && op != 0x14 && op != 0x1a && op != 0x1b ==> e.toHost == [])
    && (op != 0x05 && op != 0x15 ==> e.fromHost == [])
    && (if ((op == 0x06 || op == 0x0b) && !locked) || op == 0x1c || (op == 0x00 && e.cbw[16] == 0xfd) then
          SameSize(e.before, e.answer.media) ==> e.after == e.answer.media
        else op == 0x05 || op == 0x15 || e.after == e.before)
  }

  lemma OtherInNumbers(e: Entry, locked: bool)
    requires Correct(e, locked)
    ensures Replied(e, locked)
  {
    hide Windows, Stored, Answers, CswPacket;
  }

  /** In every run every finished command is one of the fifteen the engine knows, and has replied as it should. */
  lemma RunReplies(m0: Media, d: Dev, evs: seq<Event>, i: nat)
    requires Configured(d, m0) && i < |Run(d, evs).t.log|
    ensures Replied(Run(d, evs).t.log[i], d.locked)
  {
    RunEntriesCorrect(m0, d, evs);
    RunLock(d, evs);
    OtherInNumbers(Run(d, evs).t.log[i], d.locked);
  }

  /** The 13 bytes of a CSW. Signature "USBS", the CBW's tag; the residue is the CBW's length field with its bytes
      reversed and the status 0, but for TestUnitReady (0x00), which reports what the back end says, and for an erase
      that failed on an unlocked engine, whose status is 1. */
  predicate CswBytes(e: Entry, locked: bool) {
    var op, csw, ready := e.cbw[15], e.csw, e.answer.ready;
    && |csw| == 13
    && csw[0] == 0x55 && csw[1] == 0x53 && csw[2] == 0x42 && csw[3] == 0x53
    && csw[4] == e.cbw[4] && csw[5] == e.cbw[5] && csw[6] == e.cbw[6] && csw[7] == e.cbw[7]
    && (op == 0x00 && |ready.residue| == 4 ==> csw[8..12] == ready.residue && csw[12] == ready.status)
    && (op != 0x00 ==>
          && csw[8] == e.cbw[11] && csw[9] == e.cbw[10] && csw[10] == e.cbw[9] && csw[11] == e.cbw[8]
          && csw[12] == if (op == 0x06 || op == 0x0b) && !locked && e.answer.eraseFailed then 1 else 0)
  }

  lemma CswInNumbers(e: Entry, locked: bool)
    requires Correct(e, locked)
    ensures CswBytes(e, locked)
  {
    hide ReadDone, WriteDone, OtherDone;
    PacketBytes(e.cbw, ReportOf(e.cbw, e.answer, locked));
  }

  /** In every run every finished command's CSW is these bytes. */
  lemma RunCsws(m0: Media, d: Dev, evs: seq<Event>, i: nat)
    requires Configured(d, m0) && i < |Run(d, evs).t.log|
    ensures CswBytes(Run(d, evs).t.log[i], d.locked)
  {
    RunEntriesCorrect(m0, d, evs);
    RunLock(d, evs);
    CswInNumbers(Run(d, evs).t.log[i], d.locked);
  }

  lemma PacketBytes(cbw: Cbw, info: CswInfo)
    ensures var p := CswPacket(cbw, info);
            && |p| == 13 && p[0] == 0x55 && p[1] == 0x53 && p[2] == 0x42 && p[3] == 0x53
            && p[4] == cbw[4] && p[5] == cbw[5] && p[6] == cbw[6] && p[7] == cbw[7]
            && (|info.residue| == 4 ==>
                  && p[8..12] == info.residue
                  && p[8] == info.residue[0] && p[9] == info.residue[1]
                  && p[10] == info.residue[2] && p[11] == info.residue[3])
            && p[12] == info.status
  {
  }

  // ----- which commands can be finished, and how much moves at a time -----

  /** A command that is dispatched from any reachable state can get its CSW to the host exactly when its opcode is one
      of the fifteen and it is not a read (0x04, 0x14) of no blocks. */
  lemma KnownFinishes(m0: Media, d: Dev, b: Backend)
    requires Inv(m0, d) && CbwWaits(d)
    ensures var cbw, r := PendingCbw(d), Poll(d, b);
            var op := cbw[15];
            Pending(r) && ((exists evs :: Finishes(r, evs)) <==>
              Known(op) && (op == 0x04 || op == 0x14 ==> Count(cbw) > 0))
  {
    DispatchGoesOnIff(m0, d, b);
    FinishesIff(m0, Poll(d, b));
    FieldsAre(PendingCbw(d));
    hide Inv, Poll, CanFinish, Finishes, Count, Sectors;
  }

  /** A receive of `len` bytes, posted with `got` bytes of a write taken so far: the whole blocks still missing, at most
      128, or the 31 bytes of a CBW. */
  predicate Asks(status: Status, cbw: Cbw, got: nat, len: nat) {
    if status != RxData then status == Idle && len == 31
    else if cbw[15] == 0x05 then
      got <= 528 * Count(cbw) && len == 528 * Min((528 * Count(cbw) - got) / 528, 128)
    else cbw[15] == 0x15 && got <= 512 * Count(cbw) && len == 512 * Min((512 * Count(cbw) - got) / 512, 128)
  }

  /** In every run that is what the receive posted asks for. */
  lemma RunAsks(m0: Media, d: Dev, evs: seq<Event>)
    requires Configured(d, m0) && Run(d, evs).rx.xfer.Some?
    ensures var r := Run(d, evs); Asks(r.status, r.cbw, |r.t.fromHost|, r.rx.xfer.value.len)
  {
    RunInv(m0, d, evs);
    hide Run, Configured, Inv, Asks;
    Posted(m0, Run(d, evs));
  }

  lemma Posted(m0: Media, d: Dev)
    requires Inv(m0, d) && d.rx.xfer.Some?
    ensures Asks(d.status, d.cbw, |d.t.fromHost|, d.rx.xfer.value.len)
  {
    hide History, Flushing, KeptOf, Sectors, WantBytes, Correct, Asks;
    if d.status == RxData {
      AskSize(d.cbw, |d.t.fromHost|);
    } else {
      AskCbw(d.cbw, |d.t.fromHost|);
    }
  }

  lemma AskCbw(cbw: Cbw, got: nat)
    ensures Asks(Idle, cbw, got, CBW_LEN)
  {
  }

  lemma AskSize(cbw: Cbw, got: nat)
    requires IsWrite(cbw[15]) && got <= Size(KindOf(cbw[15]), Sectors(cbw))
    ensures Asks(RxData, cbw, got, WantBytes(KindOf(cbw[15]), Size(KindOf(cbw[15]), Sectors(cbw)) - got))
  {
    FieldsAre(cbw);
    hide Count, Sectors;
  }

  /** A read of n blocks takes (n + 127) / 128 calls of rkusb_handle_datatx. */
  lemma CallsInNumbers(m0: Media, d: Dev, evs: seq<Event>)
    requires Inv(m0, d) && CbwWaits(d) && Count(PendingCbw(d)) > 0
    requires PendingCbw(d)[15] == 0x04 || PendingCbw(d)[15] == 0x14
    requires |Run(d, evs).t.cbws| == |d.t.cbws| + 1 && Run(d, evs).status == Idle
    ensures CountCalls(d, evs) == (Count(PendingCbw(d)) + 127) / 128
  {
    InvWf(m0, d);
    FieldsAre(PendingCbw(d));
    hide Inv, Run, Sectors, Count;
    ReadTakesCalls(m0, d, evs);
  }
}
