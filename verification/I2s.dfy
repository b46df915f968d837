/** The register side of the I2S driver rk_i2s.c: two streams share the start bits, and every setting is a
    masked read-modify-write of a 32-bit register. */
module I2s {

  // ----- masks and values of rk_i2s.h -----

  const TXCR_VDW_CSR: bv32 := 0x1801F
  const TXCR_IBM: bv32 := 0x600
  const RXCR_VDW: bv32 := 0x1F
  const RXCR_IBM: bv32 := 0x600
  const CKR_MSS: bv32 := 0x0800_0000
  const CKR_MDIV: bv32 := 0x00FF_0000
  const CKR_BCLK: bv32 := 0xFFFF
  const DMACR_TDE: bv32 := 0x100
  const DMACR_RDE: bv32 := 0x0100_0000
  const DMACR_LEVELS: bv32 := 0x001F_001F
  const LEVELS_16: bv32 := 0x000F_0010
  const XFER_BOTH: bv32 := 3

  /** regmap_update_bits */
  function UpdateBits(reg: bv32, mask: bv32, val: bv32): bv32 {
    (reg & !mask) | (val & mask)
  }

  /** The bits of a register under a mask, and whether any of them is set. */
  function Field(reg: bv32, mask: bv32): bv32 {
    reg & mask
  }

  predicate Bit(reg: bv32, mask: bv32) {
    reg & mask != 0
  }

  // ----- operations -----

  datatype Stream = Playback | Capture
  datatype Trigger = Start | Resume | PauseRelease | Suspend | Stop | PausePush | OtherTrigger
  datatype Format = S8 | S16LE | S20LE | S24LE | S32LE | OtherFormat
  datatype Master = CbsCfs | CbmCfm | OtherMaster
  datatype Justify = RightJ | LeftJ | Normal | OtherJustify
  datatype DivId = Bclk | Mclk | OtherDiv

  /** A call of one of the driver's DAI operations; a divider is its 32-bit word. */
  datatype Op =
    | DoTrigger(stream: Stream, trigger: Trigger)
    | HwParams(stream: Stream, format: Format, channels: int)
    | SetFmt(master: Master, justify: Justify)
    | SetClkdiv(id: DivId, div: bv32)

  datatype Regs = Regs(txcr: bv32, rxcr: bv32, ckr: bv32, dmacr: bv32, xfer: bv32, txStart: bool, rxStart: bool)

  predicate Starts(t: Trigger) {
    t.Start? || t.Resume? || t.PauseRelease?
  }

  predicate Stops(t: Trigger) {
    t.Suspend? || t.Stop? || t.PausePush?
  }

  /** I2S_TXCR_VDW(bits); only known formats have one. */
  function WidthBits(f: Format): bv32
    requires !f.OtherFormat?
  {
    match f
    case S8 => 7
    case S16LE => 15
    case S20LE => 19
    case S24LE => 23
    case S32LE => 31
  }

  predicate KnownChannels(n: int) {
    n == 2 || n == 4 || n == 6 || n == 8
  }

  /** I2S_TXCR_CHN_n */
  function ChannelBits(n: int): bv32
    requires KnownChannels(n)
  {
    if n == 8 then 0x18000 else if n == 6 then 0x10000 else if n == 4 then 0x8000 else 0
  }

  function FormatWord(f: Format, n: int): bv32
    requires !f.OtherFormat? && KnownChannels(n)
  {
    WidthBits(f) | ChannelBits(n)
  }

  /** I2S_CKR_TSD(div) | I2S_CKR_RSD(div), and I2S_CKR_MDIV(div) */
  function BclkWord(div: bv32): bv32 {
    div | (div << 8)
  }

  function MclkWord(div: bv32): bv32 {
    div << 16
  }

  function JustifyBits(j: Justify): bv32
    requires !j.OtherJustify?
  {
    match j
    case Normal => 0
    case LeftJ => 0x200
    case RightJ => 0x400
  }

  /** rockchip_snd_txctrl and rockchip_snd_rxctrl as far as registers and flags go. */
  function TxCtrl(r: Regs, on: bool): Regs {
    if on then
      r.(dmacr := UpdateBits(r.dmacr, DMACR_TDE, DMACR_TDE), xfer := UpdateBits(r.xfer, XFER_BOTH, XFER_BOTH),
         txStart := true)
    else
      r.(txStart := false, dmacr := UpdateBits(r.dmacr, DMACR_TDE, 0),
         xfer := if r.rxStart then r.xfer else UpdateBits(r.xfer, XFER_BOTH, 0))
  }

  function RxCtrl(r: Regs, on: bool): Regs {
    if on then
      r.(dmacr := UpdateBits(r.dmacr, DMACR_RDE, DMACR_RDE), xfer := UpdateBits(r.xfer, XFER_BOTH, XFER_BOTH),
         rxStart := true)
    else
      r.(rxStart := false, dmacr := UpdateBits(r.dmacr, DMACR_RDE, 0),
         xfer := if r.txStart then r.xfer else UpdateBits(r.xfer, XFER_BOTH, 0))
  }

  function TriggerOf(r: Regs, s: Stream, t: Trigger): Regs {
    if !Starts(t) && !Stops(t) then r
    else if s.Capture? then RxCtrl(r, Starts(t)) else TxCtrl(r, Starts(t))
  }

  function ParamsOf(r: Regs, s: Stream, f: Format, n: int): Regs {
    if f.OtherFormat? || !KnownChannels(n) then r
    else
      var val := FormatWord(f, n);
      if s.Playback? then
        r.(txcr := UpdateBits(r.txcr, TXCR_VDW_CSR, val), dmacr := UpdateBits(r.dmacr, DMACR_LEVELS, LEVELS_16))
      else
        r.(rxcr := UpdateBits(r.rxcr, RXCR_VDW, val), dmacr := UpdateBits(r.dmacr, DMACR_LEVELS, LEVELS_16))
  }

  function FmtOf(r: Regs, m: Master, j: Justify): Regs {
    if m.OtherMaster? then r
    else
      var ckr := UpdateBits(r.ckr, CKR_MSS, if m.CbmCfm? then CKR_MSS else 0);
      if j.OtherJustify? then r.(ckr := ckr)
      else r.(ckr := ckr, txcr := UpdateBits(r.txcr, TXCR_IBM, JustifyBits(j)),
              rxcr := UpdateBits(r.rxcr, RXCR_IBM, JustifyBits(j)))
  }

  function ClkdivOf(r: Regs, id: DivId, div: bv32): Regs {
    match id
    case Bclk => r.(ckr := UpdateBits(r.ckr, CKR_BCLK, BclkWord(div)))
    case Mclk => r.(ckr := UpdateBits(r.ckr, CKR_MDIV, MclkWord(div)))
    case OtherDiv => r
  }

  function Step(r: Regs, op: Op): Regs {
    match op
    case DoTrigger(s, t) => TriggerOf(r, s, t)
    case HwParams(s, f, n) => ParamsOf(r, s, f, n)
    case SetFmt(m, j) => FmtOf(r, m, j)
    case SetClkdiv(id, div) => ClkdivOf(r, id, div)
  }

  function Run(r: Regs, ops: seq<Op>): Regs
    decreases |ops|
  {
    if ops == [] then r else Step(Run(r, ops[..|ops| - 1]), ops[|ops| - 1])
  }

  // ----- the registers refine a record of independent fields -----

  datatype Fields = Fields(tde: bool, rde: bool, xfer: bv32, levels: bv32, txFormat: bv32, rxFormat: bv32,
                           txJustify: bv32, rxJustify: bv32, slave: bool, bclk: bv32, mclk: bv32)

  function Decode(r: Regs): Fields {
    Fields(Bit(r.dmacr, DMACR_TDE), Bit(r.dmacr, DMACR_RDE), Field(r.xfer, XFER_BOTH), Field(r.dmacr, DMACR_LEVELS),
           Field(r.txcr, TXCR_VDW_CSR), Field(r.rxcr, RXCR_VDW), Field(r.txcr, TXCR_IBM), Field(r.rxcr, RXCR_IBM),
           Bit(r.ckr, CKR_MSS), Field(r.ckr, CKR_BCLK), Field(r.ckr, CKR_MDIV))
  }

  /** What an operation means: each touches only the fields it is named for, and the shared start bits are on
      as long as either stream is. */
  function TriggerMeaning(f: Fields, s: Stream, t: Trigger): Fields {
    if !Starts(t) && !Stops(t) then f
    else
      var tde := if s.Playback? then Starts(t) else f.tde;
      var rde := if s.Capture? then Starts(t) else f.rde;
      f.(tde := tde, rde := rde, xfer := if tde || rde then 3 else 0)
  }

  function ParamsMeaning(f: Fields, s: Stream, fm: Format, n: int): Fields {
    if fm.OtherFormat? || !KnownChannels(n) then f
    else if s.Playback? then f.(levels := LEVELS_16, txFormat := FormatWord(fm, n))
    else f.(levels := LEVELS_16, rxFormat := WidthBits(fm))
  }

  function FmtMeaning(f: Fields, m: Master, j: Justify): Fields {
    if m.OtherMaster? then f
    else if j.OtherJustify? then f.(slave := m.CbmCfm?)
    else f.(slave := m.CbmCfm?, txJustify := JustifyBits(j), rxJustify := JustifyBits(j))
  }

  function ClkdivMeaning(f: Fields, id: DivId, div: bv32): Fields {
    match id
    case Bclk => f.(bclk := BclkBits(div))
    case Mclk => f.(mclk := MclkBits(div))
    case OtherDiv => f
  }

  function Meaning(f: Fields, op: Op): Fields {
    match op
    case DoTrigger(s, t) => TriggerMeaning(f, s, t)
    case HwParams(s, fm, n) => ParamsMeaning(f, s, fm, n)
    case SetFmt(m, j) => FmtMeaning(f, m, j)
    case SetClkdiv(id, div) => ClkdivMeaning(f, id, div)
  }

  /** Both BCLK dividers for a divider value; the value spills into the upper one when it exceeds 8 bits. */
  function BclkBits(div: bv32): bv32 {
    (div & 0xFF) | (((div | (div >> 8)) & 0xFF) << 8)
  }

  function MclkBits(div: bv32): bv32 {
    (div & 0xFF) << 16
  }

  /** The sharing invariant: each DMA enable bit is its stream's flag, and both start bits are on together
      exactly while a stream is. */
  predicate Shared(r: Regs) {
    && Bit(r.dmacr, DMACR_TDE) == r.txStart
    && Bit(r.dmacr, DMACR_RDE) == r.rxStart
    && Field(r.xfer, XFER_BOTH) == if r.txStart || r.rxStart then 3 else 0
  }

  /** The trigger cases, register by register: an enable bit is set as asked, its neighbours stay. */
  lemma TdeBits(x: bv32, on: bool)
    ensures var y := UpdateBits(x, DMACR_TDE, if on then DMACR_TDE else 0);
            Bit(y, DMACR_TDE) == on && Field(y, DMACR_LEVELS) == Field(x, DMACR_LEVELS) &&
            Bit(y, DMACR_RDE) == Bit(x, DMACR_RDE)
  {
  }

  lemma RdeBits(x: bv32, on: bool)
    ensures var y := UpdateBits(x, DMACR_RDE, if on then DMACR_RDE else 0);
            Bit(y, DMACR_RDE) == on && Field(y, DMACR_LEVELS) == Field(x, DMACR_LEVELS) &&
            Bit(y, DMACR_TDE) == Bit(x, DMACR_TDE)
  {
  }

  lemma StartBits(x: bv32)
    ensures Field(UpdateBits(x, XFER_BOTH, XFER_BOTH), XFER_BOTH) == 3
    ensures Field(UpdateBits(x, XFER_BOTH, 0), XFER_BOTH) == 0
  {
  }

  lemma TxRefines(r: Regs, t: Trigger)
    requires Shared(r)
    ensures Shared(TriggerOf(r, Playback, t)) &&
            Decode(TriggerOf(r, Playback, t)) == TriggerMeaning(Decode(r), Playback, t)
  {
    hide UpdateBits, Field, Bit, Starts, Stops;
    TdeBits(r.dmacr, Starts(t));
    StartBits(r.xfer);
  }

  lemma RxRefines(r: Regs, t: Trigger)
    requires Shared(r)
    ensures Shared(TriggerOf(r, Capture, t)) &&
            Decode(TriggerOf(r, Capture, t)) == TriggerMeaning(Decode(r), Capture, t)
  {
    hide UpdateBits, Field, Bit, Starts, Stops;
    RdeBits(r.dmacr, Starts(t));
    StartBits(r.xfer);
  }

  lemma LevelBits(x: bv32)
    ensures var y := UpdateBits(x, DMACR_LEVELS, LEVELS_16);
            Field(y, DMACR_LEVELS) == LEVELS_16 && Bit(y, DMACR_TDE) == Bit(x, DMACR_TDE) &&
            Bit(y, DMACR_RDE) == Bit(x, DMACR_RDE)
  {
  }

  lemma TxFormatBits(x: bv32, f: Format, n: int)
    requires !f.OtherFormat? && KnownChannels(n)
    ensures Field(UpdateBits(x, TXCR_VDW_CSR, FormatWord(f, n)), TXCR_VDW_CSR) == FormatWord(f, n)
    ensures Field(UpdateBits(x, TXCR_VDW_CSR, FormatWord(f, n)), TXCR_IBM) == Field(x, TXCR_IBM)
  {
  }

  lemma RxFormatBits(x: bv32, f: Format, n: int)
    requires !f.OtherFormat? && KnownChannels(n)
    ensures Field(UpdateBits(x, RXCR_VDW, FormatWord(f, n)), RXCR_VDW) == WidthBits(f)
    ensures Field(UpdateBits(x, RXCR_VDW, FormatWord(f, n)), RXCR_IBM) == Field(x, RXCR_IBM)
  {
  }

  lemma PlaybackRefines(r: Regs, f: Format, n: int)
    requires Shared(r) && !f.OtherFormat? && KnownChannels(n)
    ensures Shared(ParamsOf(r, Playback, f, n)) &&
            Decode(ParamsOf(r, Playback, f, n)) == ParamsMeaning(Decode(r), Playback, f, n)
  {
    hide UpdateBits, Field, Bit, WidthBits, FormatWord, KnownChannels;
    LevelBits(r.dmacr);
    TxFormatBits(r.txcr, f, n);
  }

  lemma CaptureRefines(r: Regs, f: Format, n: int)
    requires Shared(r) && !f.OtherFormat? && KnownChannels(n)
    ensures Shared(ParamsOf(r, Capture, f, n)) &&
            Decode(ParamsOf(r, Capture, f, n)) == ParamsMeaning(Decode(r), Capture, f, n)
  {
    hide UpdateBits, Field, Bit, WidthBits, FormatWord, KnownChannels;
    LevelBits(r.dmacr);
    RxFormatBits(r.rxcr, f, n);
  }

  lemma MasterBits(x: bv32, slave: bool)
    ensures var y := UpdateBits(x, CKR_MSS, if slave then CKR_MSS else 0);
            Bit(y, CKR_MSS) == slave && Field(y, CKR_BCLK) == Field(x, CKR_BCLK) &&
            Field(y, CKR_MDIV) == Field(x, CKR_MDIV)
  {
  }

  lemma JustifyField(x: bv32, j: Justify)
    requires !j.OtherJustify?
    ensures var t := UpdateBits(x, TXCR_IBM, JustifyBits(j));
            Field(t, TXCR_IBM) == JustifyBits(j) && Field(t, TXCR_VDW_CSR) == Field(x, TXCR_VDW_CSR)
    ensures var u := UpdateBits(x, RXCR_IBM, JustifyBits(j));
            Field(u, RXCR_IBM) == JustifyBits(j) && Field(u, RXCR_VDW) == Field(x, RXCR_VDW)
  {
  }

  lemma FmtRefines(r: Regs, m: Master, j: Justify)
    requires Shared(r)
    ensures Shared(FmtOf(r, m, j)) && Decode(FmtOf(r, m, j)) == FmtMeaning(Decode(r), m, j)
  {
    hide UpdateBits, Field, Bit, JustifyBits;
    MasterBits(r.ckr, m.CbmCfm?);
    if !j.OtherJustify? {
      JustifyField(r.txcr, j);
      JustifyField(r.rxcr, j);
    }
  }

  lemma BclkField(x: bv32, div: bv32)
    ensures var y := UpdateBits(x, CKR_BCLK, BclkWord(div));
            Field(y, CKR_BCLK) == BclkBits(div) && Bit(y, CKR_MSS) == Bit(x, CKR_MSS) &&
            Field(y, CKR_MDIV) == Field(x, CKR_MDIV)
  {
  }

  lemma MclkField(x: bv32, div: bv32)
    ensures var y := UpdateBits(x, CKR_MDIV, MclkWord(div));
            Field(y, CKR_MDIV) == MclkBits(div) && Bit(y, CKR_MSS) == Bit(x, CKR_MSS) &&
            Field(y, CKR_BCLK) == Field(x, CKR_BCLK)
  {
  }

  lemma ClkdivRefines(r: Regs, id: DivId, div: bv32)
    requires Shared(r)
    ensures Shared(ClkdivOf(r, id, div)) && Decode(ClkdivOf(r, id, div)) == ClkdivMeaning(Decode(r), id, div)
  {
    hide UpdateBits, Field, Bit, BclkBits, MclkBits, BclkWord, MclkWord;
    BclkField(r.ckr, div);
    MclkField(r.ckr, div);
  }

  lemma StepRefines(r: Regs, op: Op)
    requires Shared(r)
    ensures Shared(Step(r, op)) && Decode(Step(r, op)) == Meaning(Decode(r), op)
  {
    hide Shared, Decode, TriggerOf, TriggerMeaning, FmtOf, FmtMeaning, ClkdivOf, ClkdivMeaning;
    hide UpdateBits, WidthBits, FormatWord, KnownChannels;
    match op
    case DoTrigger(s, t) =>
      if s.Capture? {
        RxRefines(r, t);
      } else {
        TxRefines(r, t);
      }
    case HwParams(s, f, n) =>
      if !f.OtherFormat? && KnownChannels(n) {
        PlaybackRefines(r, f, n);
        CaptureRefines(r, f, n);
      }
    case SetFmt(m, j) => FmtRefines(r, m, j);
    case SetClkdiv(id, div) => ClkdivRefines(r, id, div);
  }

  function MeaningRun(f: Fields, ops: seq<Op>): Fields {
    if ops == [] then f else Meaning(MeaningRun(f, ops[..|ops| - 1]), ops[|ops| - 1])
  }

  /** Over every sequence of calls the five registers behave as eleven independent fields. */
  lemma {:induction false} RunRefines(r: Regs, ops: seq<Op>)
    requires Shared(r)
    ensures Shared(Run(r, ops)) && Decode(Run(r, ops)) == MeaningRun(Decode(r), ops)
  {
    hide Shared, Decode, Step, Meaning;
    if ops != [] {
      RunRefines(r, ops[..|ops| - 1]);
      StepRefines(Run(r, ops[..|ops| - 1]), ops[|ops| - 1]);
    }
  }

  predicate Switches(op: Op, s: Stream) {
    op.DoTrigger? && op.stream == s && (Starts(op.trigger) || Stops(op.trigger))
  }

  /** Whether the last start or stop of a stream in `ops` was a start. */
  predicate Running(ops: seq<Op>, s: Stream, initially: bool) {
    if ops == [] then initially
    else
      var op := ops[|ops| - 1];
      if Switches(op, s) then Starts(op.trigger)
      else Running(ops[..|ops| - 1], s, initially)
  }

  /** The enable bits and the shared start bits, from the call history alone: no call for one stream, and no
      setting, disturbs the other stream. */
  lemma {:induction false} StreamsFollowTriggers(r: Regs, ops: seq<Op>)
    requires Shared(r)
    ensures var e := Run(r, ops);
            var tx, rx := Running(ops, Playback, r.txStart), Running(ops, Capture, r.rxStart);
            && e.txStart == tx && Bit(e.dmacr, DMACR_TDE) == tx
            && e.rxStart == rx && Bit(e.dmacr, DMACR_RDE) == rx
            && Field(e.xfer, XFER_BOTH) == if tx || rx then 3 else 0
  {
    hide UpdateBits, Field, Bit, Step, WidthBits, FormatWord, KnownChannels;
    RunRefines(r, ops);
    FlagsFollow(r, ops);
  }

  lemma FlagStep(r: Regs, op: Op)
    ensures Step(r, op).txStart == if Switches(op, Playback) then Starts(op.trigger) else r.txStart
    ensures Step(r, op).rxStart == if Switches(op, Capture) then Starts(op.trigger) else r.rxStart
  {
    hide UpdateBits, WidthBits, FormatWord, KnownChannels, JustifyBits, BclkWord, MclkWord, Starts, Stops;
  }

  lemma {:induction false} FlagsFollow(r: Regs, ops: seq<Op>)
    ensures Run(r, ops).txStart == Running(ops, Playback, r.txStart)
    ensures Run(r, ops).rxStart == Running(ops, Capture, r.rxStart)
  {
    hide Step, Starts, Stops;
    if ops != [] {
      FlagsFollow(r, ops[..|ops| - 1]);
      FlagStep(Run(r, ops[..|ops| - 1]), ops[|ops| - 1]);
    }
  }

  /** The end of probe turns both streams off, which makes the enable bits agree with the flags whatever the
      registers held before. */
  lemma ProbeShares(r: Regs)
    requires !r.txStart && !r.rxStart
    ensures Shared(RxCtrl(TxCtrl(r, false), false))
  {
    hide UpdateBits, Field, Bit;
    TdeBits(r.dmacr, false);
    RdeBits(UpdateBits(r.dmacr, DMACR_TDE, 0), false);
    StartBits(UpdateBits(r.xfer, XFER_BOTH, 0));
  }

  /** The dividers hold the requested value exactly when it fits their 8 bits. */
  lemma DividerExactIff(div: bv32)
    ensures BclkBits(div) & 0xFF == div && BclkBits(div) >> 8 == div <==> div <= 255
    ensures MclkBits(div) >> 16 == div <==> div <= 255
  {
  }

  // ----- the driver object -----

  const EINVAL := -22

  /** The calls answer 0 unless the format, channel count, divider or trigger is unknown; a bad master or
      justification is not reported. */
  function Answer(op: Op): int {
    match op
    case DoTrigger(_, t) => if Starts(t) || Stops(t) then 0 else EINVAL
    case HwParams(_, f, n) => if !f.OtherFormat? && KnownChannels(n) then 0 else EINVAL
    case SetFmt(_, _) => 0
    case SetClkdiv(id, _) => if id.OtherDiv? then EINVAL else 0
  }

  /** What set_fmt was asked for is in the registers. */
  predicate FmtTaken(r: Regs, m: Master, j: Justify) {
    && !m.OtherMaster? && !j.OtherJustify?
    && Bit(r.ckr, CKR_MSS) == m.CbmCfm?
    && Field(r.txcr, TXCR_IBM) == JustifyBits(j) && Field(r.rxcr, RXCR_IBM) == JustifyBits(j)
  }

  /** set_fmt always reports success, but does what it was asked for exactly when it knows both settings; an unknown
      master changes nothing, an unknown justification only the master bit. */
  lemma SetFmtReports(r: Regs, m: Master, j: Justify)
    ensures Answer(SetFmt(m, j)) == 0
    ensures FmtTaken(FmtOf(r, m, j), m, j) <==> !m.OtherMaster? && !j.OtherJustify?
    ensures m.OtherMaster? ==> FmtOf(r, m, j) == r
    ensures j.OtherJustify? ==> FmtOf(r, m, j) == r.(ckr := FmtOf(r, m, j).ckr)
  {
    hide UpdateBits, Field, Bit, JustifyBits;
    MasterBits(r.ckr, m.CbmCfm?);
    if !j.OtherJustify? {
      JustifyField(r.txcr, j);
      JustifyField(r.rxcr, j);
    }
  }

  /** A call stops the transfer, and with it clears the chip's two clock domains, exactly when it turns a stream
      off while the other one is off. */
  predicate Clears(r: Regs, op: Op) {
    op.DoTrigger? && Stops(op.trigger) && if op.stream.Playback? then !r.rxStart else !r.txStart
  }

  /** Seen from outside: the stops that clear are those after which neither stream, no enable bit and no start
      bit is on. */
  lemma ClearsIff(r: Regs, op: Op)
    requires Shared(r) && op.DoTrigger? && Stops(op.trigger)
    ensures var e := Step(r, op);
            && (Clears(r, op) <==> Field(e.xfer, XFER_BOTH) == 0)
            && (Clears(r, op) <==> !Bit(e.dmacr, DMACR_TDE) && !Bit(e.dmacr, DMACR_RDE))
  {
    hide UpdateBits, Field, Bit, Step;
    StepRefines(r, op);
    FlagStep(r, op);
  }

  // ----- the registers in numbers -----

  /** A word with these bits on, and off. */
  function With(x: bv32, bits: bv32): bv32 {
    x | bits
  }

  function Without(x: bv32, bits: bv32): bv32 {
    x & !bits
  }

  predicate TurnsOn(t: Trigger) {
    t == Start || t == Resume || t == PauseRelease
  }

  predicate TurnsOff(t: Trigger) {
    t == Suspend || t == Stop || t == PausePush
  }

  lemma TdeCodes(x: bv32)
    ensures UpdateBits(x, DMACR_TDE, DMACR_TDE) == With(x, 0x100) && UpdateBits(x, DMACR_TDE, 0) == Without(x, 0x100)
  {
  }

  lemma RdeCodes(x: bv32)
    ensures UpdateBits(x, DMACR_RDE, DMACR_RDE) == With(x, 0x100_0000)
    ensures UpdateBits(x, DMACR_RDE, 0) == Without(x, 0x100_0000)
  {
  }

  lemma XferCodes(x: bv32)
    ensures UpdateBits(x, XFER_BOTH, XFER_BOTH) == With(x, 3) && UpdateBits(x, XFER_BOTH, 0) == Without(x, 3)
  {
  }

  lemma LevelCode(x: bv32)
    ensures UpdateBits(x, DMACR_LEVELS, LEVELS_16) == With(Without(x, 0x1F_001F), 0xF_0010)
  {
  }

  function Width(f: Format): bv32 {
    match f
    case S8 => 8 - 1
    case S16LE => 16 - 1
    case S20LE => 20 - 1
    case S24LE => 24 - 1
    case S32LE => 32 - 1
    case OtherFormat => 0
  }

  function Pairs(n: int): bv32 {
    if n == 4 then 1 else if n == 6 then 2 else if n == 8 then 3 else 0
  }

  lemma TxFormatCode(x: bv32, f: Format, n: int)
    requires f != OtherFormat && (n == 2 || n == 4 || n == 6 || n == 8)
    ensures UpdateBits(x, TXCR_VDW_CSR, FormatWord(f, n)) == With(Without(x, 0x1_801F), Width(f) | (Pairs(n) << 15))
  {
  }

  lemma RxFormatCode(x: bv32, f: Format, n: int)
    requires f != OtherFormat && (n == 2 || n == 4 || n == 6 || n == 8)
    ensures UpdateBits(x, RXCR_VDW, FormatWord(f, n)) == With(Without(x, 0x1F), Width(f))
  {
  }

  lemma MssCodes(x: bv32)
    ensures UpdateBits(x, CKR_MSS, CKR_MSS) == With(x, 0x800_0000)
    ensures UpdateBits(x, CKR_MSS, 0) == Without(x, 0x800_0000)
  {
  }

  function FormatCode(j: Justify): bv32 {
    match j
    case Normal => 0
    case LeftJ => 1
    case RightJ => 2
    case OtherJustify => 0
  }

  lemma JustifyCode(x: bv32, j: Justify)
    requires j != OtherJustify
    ensures UpdateBits(x, TXCR_IBM, JustifyBits(j)) == With(Without(x, 0x600), FormatCode(j) << 9)
    ensures UpdateBits(x, RXCR_IBM, JustifyBits(j)) == With(Without(x, 0x600), FormatCode(j) << 9)
  {
  }

  function PlaybackCodes(r: Regs, t: Trigger): Regs {
    if TurnsOn(t) then r.(dmacr := With(r.dmacr, 0x100), xfer := With(r.xfer, 3), txStart := true)
    else if TurnsOff(t) then
      r.(dmacr := Without(r.dmacr, 0x100), xfer := if r.rxStart then r.xfer else Without(r.xfer, 3), txStart := false)
    else r
  }

  function CaptureCodes(r: Regs, t: Trigger): Regs {
    if TurnsOn(t) then r.(dmacr := With(r.dmacr, 0x100_0000), xfer := With(r.xfer, 3), rxStart := true)
    else if TurnsOff(t) then
      r.(dmacr := Without(r.dmacr, 0x100_0000), xfer := if r.txStart then r.xfer else Without(r.xfer, 3),
         rxStart := false)
    else r
  }

  /** What a trigger does to the registers: bit 8 (playback) or 24 (capture) of DMACR, and the low two bits of XFER,
      which go off only with the second stream. */
  lemma TriggerCodes(r: Regs, s: Stream, t: Trigger)
    ensures Step(r, DoTrigger(s, t)) == if s == Playback then PlaybackCodes(r, t) else CaptureCodes(r, t)
    ensures Answer(DoTrigger(s, t)) == if t == OtherTrigger then -22 else 0
  {
    hide UpdateBits, With, Without;
    XferCodes(r.xfer);
    if s == Playback {
      hide RxCtrl;
      TdeCodes(r.dmacr);
    } else {
      hide TxCtrl;
      RdeCodes(r.dmacr);
    }
  }

  /** The word width less one in the low five bits of TXCR or RXCR; of TXCR also the channel pairs less one, from bit 15
      on; and both DMA levels. */
  lemma ParamsCodes(r: Regs, s: Stream, f: Format, n: int)
    ensures var e := Step(r, HwParams(s, f, n));
            if f == OtherFormat || (n != 2 && n != 4 && n != 6 && n != 8) then
              e == r && Answer(HwParams(s, f, n)) == -22
            else
              && Answer(HwParams(s, f, n)) == 0
              && e.dmacr == With(Without(r.dmacr, 0x1F_001F), 0xF_0010)
              && e.txcr == (if s == Capture then r.txcr
                            else With(Without(r.txcr, 0x1_801F), Width(f) | (Pairs(n) << 15)))
              && e.rxcr == (if s == Capture then With(Without(r.rxcr, 0x1F), Width(f)) else r.rxcr)
              && e == r.(txcr := e.txcr, rxcr := e.rxcr, dmacr := e.dmacr)
  {
    hide UpdateBits, FormatWord, Width, Pairs, With, Without;
    if f != OtherFormat && KnownChannels(n) {
      TxFormatCode(r.txcr, f, n);
      RxFormatCode(r.rxcr, f, n);
      LevelCode(r.dmacr);
    }
  }

  /** Bit 27 of CKR for a codec that is master, and the data format from bit 9 of TXCR and RXCR on. */
  lemma FmtCodes(r: Regs, m: Master, j: Justify)
    ensures var e := Step(r, SetFmt(m, j));
            && e.ckr == (if m == OtherMaster then r.ckr else if m == CbmCfm then With(r.ckr, 0x800_0000)
                         else Without(r.ckr, 0x800_0000))
            && (m == OtherMaster || j == OtherJustify ==> e.txcr == r.txcr && e.rxcr == r.rxcr)
            && (m != OtherMaster && j != OtherJustify ==>
                  && e.txcr == With(Without(r.txcr, 0x600), FormatCode(j) << 9)
                  && e.rxcr == With(Without(r.rxcr, 0x600), FormatCode(j) << 9))
            && e == r.(ckr := e.ckr, txcr := e.txcr, rxcr := e.rxcr)
  {
    hide UpdateBits, JustifyBits, FormatCode, With, Without;
    MssCodes(r.ckr);
    if j != OtherJustify {
      JustifyCode(r.txcr, j);
      JustifyCode(r.rxcr, j);
    }
  }

  /** A divider of eight bits, in the low two bytes of CKR (bit clock) or the third (master clock). */
  lemma ClkdivCodes(r: Regs, id: DivId, div: bv32)
    ensures var e := Step(r, SetClkdiv(id, div));
            && (id == Bclk && div <= 255 ==> e == r.(ckr := With(Without(r.ckr, 0xFFFF), div | (div << 8))))
            && (id == Mclk && div <= 255 ==> e == r.(ckr := With(Without(r.ckr, 0xFF_0000), div << 16)))
            && (id == OtherDiv ==> e == r)
            && Answer(SetClkdiv(id, div)) == if id == OtherDiv then -22 else 0
  {
    hide UpdateBits, BclkWord, MclkWord, With, Without;
    if div <= 255 {
      BclkCode(r.ckr, div);
      MclkCode(r.ckr, div);
    }
  }

  lemma BclkCode(x: bv32, div: bv32)
    requires div <= 255
    ensures UpdateBits(x, CKR_BCLK, BclkWord(div)) == With(Without(x, 0xFFFF), div | (div << 8))
  {
  }

  lemma MclkCode(x: bv32, div: bv32)
    requires div <= 255
    ensures UpdateBits(x, CKR_MDIV, MclkWord(div)) == With(Without(x, 0xFF_0000), div << 16)
  {
  }

  class I2sDev {
    var txcr: bv32
    var rxcr: bv32
    var ckr: bv32
    var dmacr: bv32
    var xfer: bv32
    var txStart: bool
    var rxStart: bool
    /** The writes of I2S_CLR so far. */
    var clears: nat

    function State(): Regs
      reads this
    {
      Regs(txcr, rxcr, ckr, dmacr, xfer, txStart, rxStart)
    }

    /** The wait after a clear; `clr(k)` is what the k-th read of I2S_CLR gives. The driver complains exactly when
        the first ten reads are all non-zero, even if the eleventh is zero. */
    method WaitClear(clr: nat -> bv32) returns (count: nat, warned: bool)
      ensures warned <==> forall k :: 0 <= k < 10 ==> clr(k) != 0
      ensures 1 <= count <= 11 && (warned <==> count == 11)
      ensures !warned ==> clr(count - 1) == 0
      ensures forall k :: 0 <= k < count - 1 ==> clr(k) != 0
    {
      var val := clr(0);
      var retry := 10;
      count := 1;
      warned := false;
      while val != 0
        invariant 1 <= retry && count == 11 - retry
        invariant val == clr(count - 1) && !warned
        invariant forall k :: 0 <= k < count - 1 ==> clr(k) != 0
        decreases retry
      {
        val := clr(count);
        count := count + 1;
        retry := retry - 1;
        if retry == 0 {
          warned := true;
          break;
        }
      }
    }

    method SetTx(on: bool, clr: nat -> bv32) returns (warned: bool)
      modifies this
      ensures State() == TxCtrl(old(State()), on)
      ensures clears == old(clears) + if !on && !old(rxStart) then 1 else 0
      ensures warned <==> !on && !old(rxStart) && forall k :: 0 <= k < 10 ==> clr(k) != 0
    {
      warned := false;
      if on {
        dmacr := UpdateBits(dmacr, DMACR_TDE, DMACR_TDE);
        xfer := UpdateBits(xfer, XFER_BOTH, XFER_BOTH);
        txStart := true;
      } else {
        txStart := false;
        dmacr := UpdateBits(dmacr, DMACR_TDE, 0);
        if !rxStart {
          xfer := UpdateBits(xfer, XFER_BOTH, 0);
          clears := clears + 1;
          var _, w := WaitClear(clr);
          warned := w;
        }
      }
    }

    method SetRx(on: bool, clr: nat -> bv32) returns (warned: bool)
      modifies this
      ensures State() == RxCtrl(old(State()), on)
      ensures clears == old(clears) + if !on && !old(txStart) then 1 else 0
      ensures warned <==> !on && !old(txStart) && forall k :: 0 <= k < 10 ==> clr(k) != 0
    {
      warned := false;
      if on {
        dmacr := UpdateBits(dmacr, DMACR_RDE, DMACR_RDE);
        xfer := UpdateBits(xfer, XFER_BOTH, XFER_BOTH);
        rxStart := true;
      } else {
        rxStart := false;
        dmacr := UpdateBits(dmacr, DMACR_RDE, 0);
        if !txStart {
          xfer := UpdateBits(xfer, XFER_BOTH, 0);
          clears := clears + 1;
          var _, w := WaitClear(clr);
          warned := w;
        }
      }
    }

    method OnTrigger(s: Stream, t: Trigger, clr: nat -> bv32) returns (ret: int)
      modifies this
      ensures State() == Step(old(State()), DoTrigger(s, t)) && ret == Answer(DoTrigger(s, t))
      ensures clears == old(clears) + if Clears(old(State()), DoTrigger(s, t)) then 1 else 0
    {
      hide UpdateBits;
      ret := 0;
      if Starts(t) || Stops(t) {
        if s.Capture? {
          var _ := SetRx(Starts(t), clr);
        } else {
          var _ := SetTx(Starts(t), clr);
        }
      } else {
        ret := EINVAL;
      }
    }

    method OnHwParams(s: Stream, f: Format, n: int) returns (ret: int)
      modifies this
      ensures State() == Step(old(State()), HwParams(s, f, n)) && ret == Answer(HwParams(s, f, n))
      ensures clears == old(clears)
    {
      hide UpdateBits, WidthBits, ChannelBits;
      if f.OtherFormat? || !KnownChannels(n) {
        return EINVAL;
      }
      var val := WidthBits(f) | ChannelBits(n);
      if s.Playback? {
        txcr := UpdateBits(txcr, TXCR_VDW_CSR, val);
      } else {
        rxcr := UpdateBits(rxcr, RXCR_VDW, val);
      }
      dmacr := UpdateBits(dmacr, DMACR_LEVELS, LEVELS_16);
      return 0;
    }

    method OnSetFmt(m: Master, j: Justify) returns (ret: int)
      modifies this
      ensures State() == Step(old(State()), SetFmt(m, j)) && ret == Answer(SetFmt(m, j))
      ensures clears == old(clears)
    {
      hide UpdateBits, JustifyBits;
      if !m.OtherMaster? {
        ckr := UpdateBits(ckr, CKR_MSS, if m.CbmCfm? then CKR_MSS else 0);
        if !j.OtherJustify? {
          txcr := UpdateBits(txcr, TXCR_IBM, JustifyBits(j));
          rxcr := UpdateBits(rxcr, RXCR_IBM, JustifyBits(j));
        }
      }
      return 0;
    }

    method OnSetClkdiv(id: DivId, div: bv32) returns (ret: int)
      modifies this
      ensures State() == Step(old(State()), SetClkdiv(id, div)) && ret == Answer(SetClkdiv(id, div))
      ensures clears == old(clears)
    {
      hide UpdateBits, BclkWord, MclkWord;
      match id
      case Bclk => ckr := UpdateBits(ckr, CKR_BCLK, BclkWord(div)); ret := 0;
      case Mclk => ckr := UpdateBits(ckr, CKR_MDIV, MclkWord(div)); ret := 0;
      case OtherDiv => ret := EINVAL;
    }
  }
}
