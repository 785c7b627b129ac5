/**
 What the guest does to the devices when it reads and writes their registers, and the host at their pins, told by
 registers and fields alone.
 */
module GuestEffects {
  import opened Basics
  import opened DeviceEffects
  import opened DeviceState
  import opened IoRegisters
  import opened Registers8
  import opened SerialUnits

  /** Seven registers exist on neither variant, and nine on the Z8S180 alone: the extension and time constant registers
      of the ASCI, its clock multiplier, and the upper byte of the I/O address of DMA channel 1. */
  ghost predicate Present(variant: Variant, index: nat) {
    && index < 0x40 && index != 0x11 && index != 0x19 && index != 0x35 && index != 0x37 && !(0x3b <= index <= 0x3d)
    && (variant == Z80180 ==> !(0x12 <= index <= 0x13) && !(0x1a <= index <= 0x1f) && index != 0x2d)
  }

  lemma PresentIs(variant: Variant, index: nat)
    ensures Available(variant, index) <==> Present(variant, index)
  {
  }

  /** Only these registers may have changed. */
  ghost predicate Only(f: Fields, g: Fields, changed: set<nat>) {
    forall i :: 0 <= i < IO_REGISTER_COUNT && i !in changed ==> g.regs[i] == f.regs[i]
  }

  ghost predicate OnlyTwo(f: Fields, g: Fields, a: nat, b: nat) {
    forall i :: 0 <= i < IO_REGISTER_COUNT && i != a && i != b ==> g.regs[i] == f.regs[i]
  }

  ghost predicate SameAsci(f: Fields, g: Fields, ch: Ch) {
    g.tx.Of(ch) == f.tx.Of(ch) && g.rx.Of(ch) == f.rx.Of(ch)
  }

  ghost predicate SameCsio(f: Fields, g: Fields) {
    && g.csioRxShift == f.csioRxShift && g.csioCycles == f.csioCycles && g.csioClocked == f.csioClocked
    && g.csioOutput == f.csioOutput
  }

  ghost predicate SameUnits(f: Fields, g: Fields) {
    SameAsci(f, g, 0) && SameAsci(f, g, 1) && SameCsio(f, g)
  }

  ghost predicate SameLatches(f: Fields, g: Fields) {
    && g.highLatch == f.highLatch && g.highLatchValid == f.highLatchValid && g.clearArmed == f.clearArmed
    && g.dcdLatched == f.dcdLatched && g.dcdIrq == f.dcdIrq
  }

  /** What no access of the guest touches. */
  ghost predicate SameWorld(f: Fields, g: Fields) {
    && g.variant == f.variant && g.cycleCount == f.cycleCount && g.frcRemainder == f.frcRemainder
    && g.prtRemainder == f.prtRemainder && g.cts == f.cts && g.dcd == f.dcd
  }

  // -------------------------------------------------------------------------------- the ASCI, written

  /** The byte in TDR moves into an idle shifter if channel `ch` may send. */
  ghost predicate Begins(r: RegFile, variant: Variant, ch: Ch, t: Tx, u: Tx) {
    if t.shift.None? && t.tdrFull && !r[ICR].b5 && r[CNTLA0 + ch].b5 then
      match FrameOf(variant, r, ch)
      case None => u == Tx(false, Some(r[TDR0 + ch]), 0, false, t.output)
      case Some(frame) => u == Tx(false, Some(r[TDR0 + ch]), frame, true, t.output)
    else u == t
  }

  /** A shifter is dropped. */
  ghost function RxOff(r: Rx, off: bool): Rx {
    if off then Rx(None, 0, false, r.fifo) else r
  }

  ghost function TxOff(t: Tx, off: bool): Tx {
    if off then Tx(t.tdrFull, None, 0, false, t.output) else t
  }

  ghost predicate Enables(value: Bits, stop: bool, next: Bits) {
    next == value.(b6 := value.b6 && !stop, b5 := value.b5 && !stop)
  }

  ghost predicate ErrorsOff(stat: Bits, clear: bool, waiting: bool, full: bool, stat': Bits) {
    stat' == stat.(b7 := waiting, b6 := stat.b6 && !clear, b5 := stat.b5 && !clear, b4 := stat.b4 && !clear,
                   b1 := !full)
  }

  /** IOSTOP keeps both enables off. A receiver or transmitter that goes off drops its shifter, and a transmitter
      that goes on takes up the byte in TDR; errors are cleared where EFR is low. */
  ghost predicate CntlaDid(f: Fields, ch: Ch, value: Bits, g: Fields) {
    var (before, next, stop) := (f.regs[CNTLA0 + ch], g.regs[CNTLA0 + ch], f.regs[ICR].b5);
    var (t, r, stat) := (f.tx.Of(ch), f.rx.Of(ch), f.regs[STAT0 + ch]);
    && Enables(value, stop, next)
    && g.rx.Of(ch) == RxOff(r, before.b6 && !next.b6)
    && Begins(g.regs, f.variant, ch, TxOff(t, before.b5 && !next.b5), g.tx.Of(ch))
    && ErrorsOff(stat, !next.b3, r.fifo != [], g.tx.Of(ch).tdrFull, g.regs[STAT0 + ch])
    && OnlyTwo(f, g, CNTLA0 + ch, STAT0 + ch)
    && SameAsci(f, g, 1 - ch) && SameCsio(f, g) && SameLatches(f, g)
  }

  /** A reception that had no clock gets one, if there is one now. */
  ghost predicate CntlbDid(f: Fields, ch: Ch, value: Bits, g: Fields) {
    var (r, q) := (f.rx.Of(ch), g.rx.Of(ch));
    && g.regs == f.regs[CNTLB0 + ch := value] && g.tx.Of(ch) == f.tx.Of(ch)
    && (if r.shift.None? || r.clocked then q == r
        else match FrameOf(f.variant, g.regs, ch)
             case None => q == r
             case Some(frame) => q == Rx(r.shift, frame, true, r.fifo))
    && SameAsci(f, g, 1 - ch) && SameCsio(f, g) && SameLatches(f, g)
  }

  /** The enables are stored, and on channel 1 the bit that gives the CTS1 pin to the channel; that stops a CSI/O
      reception. */
  ghost predicate StatDid(f: Fields, ch: Ch, value: Bits, g: Fields) {
    var stat := f.regs[STAT0 + ch];
    && g.regs[STAT0 + ch] == stat.(b3 := value.b3, b2 := if ch == 1 then value.b2 else stat.b2, b0 := value.b0)
    && (if ch == 1 && value.b2 then
          && g.regs[CNTR] == f.regs[CNTR].(b5 := false) && OnlyTwo(f, g, STAT1, CNTR)
          && g.csioRxShift == None && g.csioCycles == 0 && !g.csioClocked && g.csioOutput == f.csioOutput
        else Only(f, g, {STAT0 + ch}) && SameCsio(f, g))
    && SameAsci(f, g, 0) && SameAsci(f, g, 1) && SameLatches(f, g)
  }

  /** TDR is full, unless IOSTOP is set, and goes on into the shifter if it can. */
  ghost predicate TdrDid(f: Fields, ch: Ch, value: Bits, g: Fields) {
    && g.regs[TDR0 + ch] == value
    && Begins(g.regs, f.variant, ch, f.tx.Of(ch).(tdrFull := !f.regs[ICR].b5), g.tx.Of(ch))
    && g.rx.Of(ch) == f.rx.Of(ch)
    && g.regs[STAT0 + ch] == f.regs[STAT0 + ch].(b7 := f.rx.Of(ch).fifo != [], b1 := !g.tx.Of(ch).tdrFull)
    && OnlyTwo(f, g, TDR0 + ch, STAT0 + ch)
    && SameAsci(f, g, 1 - ch) && SameCsio(f, g) && SameLatches(f, g)
  }

  /** The Z8S180 keeps a byte that has been received and not read. */
  ghost predicate RdrDid(f: Fields, ch: Ch, value: Bits, g: Fields) {
    && g.regs[RDR0 + ch] == (if f.variant == Z8S180 && f.regs[STAT0 + ch].b7 then f.regs[RDR0 + ch] else value)
    && Only(f, g, {RDR0 + ch}) && SameUnits(f, g) && SameLatches(f, g)
  }

  /** If channel 0 may be stopped by a lost carrier, and one is latched, reception is given up. */
  ghost predicate AsextDid(f: Fields, ch: Ch, value: Bits, g: Fields) {
    var (was, stat) := (f.regs[ASEXT0 + ch], f.regs[STAT0 + ch]);
    && g.regs[ASEXT0 + ch] == (if ch == 0 then value.(b1 := was.b1)
                               else value.(b6 := was.b6, b5 := was.b5, b1 := was.b1))
    && g.tx == f.tx && SameAsci(f, g, 1 - ch)
    && (if ch == 0 && f.dcdLatched && !(f.variant == Z8S180 && value.b6) then
          && g.rx.first == Rx(None, 0, false, []) && OnlyTwo(f, g, ASEXT0, STAT0)
          && g.regs[STAT0] == stat.(b7 := false, b6 := false, b5 := false, b4 := false, b1 := !f.tx.first.tdrFull)
        else g.rx.Of(ch) == f.rx.Of(ch) && Only(f, g, {ASEXT0 + ch}))
    && SameCsio(f, g) && SameLatches(f, g)
  }

  // ----------------------------------------------------------------------------- the others, written

  /** Neither direction under IOSTOP or with both asked for, and none inwards while CTS1 has the pin. A transfer
      starts when sending goes on; reception begins and ends without a byte. */
  ghost predicate CntrDid(f: Fields, value: Bits, g: Fields) {
    var (before, next, stop) := (f.regs[CNTR], g.regs[CNTR], f.regs[ICR].b5);
    && next == value.(b7 := before.b7 && !stop, b5 := value.b5 && !value.b4 && !stop && !f.regs[STAT1].b2,
                      b4 := value.b4 && !value.b5 && !stop, b3 := before.b3)
    && (if next.b4 && !before.b4 then
          && g.csioRxShift == None
          && match TransferOf(next)
             case None => g.csioCycles == 0 && !g.csioClocked
             case Some(cycles) => g.csioCycles == cycles && g.csioClocked
        else if before.b5 != next.b5 then g.csioRxShift == None && g.csioCycles == 0 && !g.csioClocked
        else if before.b4 && !next.b4 then g.csioRxShift == f.csioRxShift && g.csioCycles == 0 && !g.csioClocked
        else g.csioRxShift == f.csioRxShift && g.csioCycles == f.csioCycles && g.csioClocked == f.csioClocked)
    && g.csioOutput == f.csioOutput
    && Only(f, g, {CNTR}) && SameAsci(f, g, 0) && SameAsci(f, g, 1) && SameLatches(f, g)
  }

  ghost predicate TrdDid(f: Fields, value: Bits, g: Fields) {
    && g.regs[TRD] == value && g.regs[CNTR] == f.regs[CNTR].(b7 := false)
    && OnlyTwo(f, g, TRD, CNTR) && SameUnits(f, g) && SameLatches(f, g)
  }

  /** A counter byte can be written only while its timer stands still; the latched high byte is void then. */
  ghost predicate TmdrDid(f: Fields, index: nat, value: Bits, g: Fields)
    requires index < IO_REGISTER_COUNT
  {
    var second := index == TMDR1L || index == TMDR1H;
    var runs := if second then f.regs[TCR].b1 else f.regs[TCR].b0;
    && g.regs == (if runs then f.regs else f.regs[index := value])
    && g.highLatchValid.first == (f.highLatchValid.first && (runs || second))
    && g.highLatchValid.second == (f.highLatchValid.second && (runs || !second))
    && g.highLatch == f.highLatch && g.clearArmed == f.clearArmed && g.dcdLatched == f.dcdLatched
    && g.dcdIrq == f.dcdIrq && SameUnits(f, g)
  }

  /** What else the guest stores: the flags of the timers stay; an enable of DMA changes only where its write bit is
      low, and the main enable goes on with either; a TRAP flag can only go off; some bits are fixed. */
  ghost predicate PlainByte(index: nat, b: Bits, v: Bits, w: Bits) {
    if index == TCR then w == v.(b7 := b.b7, b6 := b.b6)
    else if index == DSTAT then
      && w.b7 == (if v.b5 then b.b7 else v.b7) && w.b6 == (if v.b4 then b.b6 else v.b6)
      && w.b5 && w.b4 && w.b3 == v.b3 && w.b2 == v.b2 && !w.b1
      && w.b0 == (b.b0 || (!v.b5 && v.b7) || (!v.b4 && v.b6))
    else if index == ITC then w == Bits(b.b7 && v.b7, b.b6, false, false, false, v.b2, v.b1, v.b0)
    else if index == FRC then w == b
    else if index == SAR0L + 2 || index == DAR0L + 2 || index == MAR1L + 2 then
      w == v.(b7 := b.b7, b6 := b.b6, b5 := b.b5, b4 := b.b4)
    else if index == DMODE then w == v.(b7 := b.b7, b6 := b.b6, b0 := b.b0)
    else if index == 0x1e then w == b.(b7 := v.b7)
    else if index == 0x2d then w == v.(b5 := b.b5, b4 := b.b4)
    else if index == 0x33 || index == 0x3e then w == b.(b7 := v.b7, b6 := v.b6, b5 := v.b5)
    else if index == 0x36 then w == v.(b5 := b.b5, b4 := b.b4, b3 := b.b3, b2 := b.b2)
    else w == v
  }

  ghost predicate PlainDid(f: Fields, index: nat, value: Bits, g: Fields)
    requires index < IO_REGISTER_COUNT
  {
    && PlainByte(index, f.regs[index], value, g.regs[index]) && Only(f, g, {index})
    && SameUnits(f, g) && SameLatches(f, g)
  }

  /** IOSTOP turns off and empties the serial units; what has gone out stays. */
  ghost predicate IcrDid(f: Fields, value: Bits, g: Fields) {
    && g.regs[ICR] == f.regs[ICR].(b7 := value.b7, b6 := value.b6, b5 := value.b5)
    && (if value.b5 then
          && Only(f, g, {CNTLA0, CNTLA0 + 1, STAT0, STAT1, CNTR, ICR})
          && g.regs[CNTR] == f.regs[CNTR].(b7 := false, b5 := false, b4 := false)
          && StoppedAsci(f, g, 0) && StoppedAsci(f, g, 1)
          && g.csioRxShift == None && g.csioCycles == 0 && !g.csioClocked && g.csioOutput == f.csioOutput
        else Only(f, g, {ICR}) && SameUnits(f, g))
    && SameLatches(f, g)
  }

  ghost predicate StoppedAsci(f: Fields, g: Fields, ch: Ch) {
    && g.regs[CNTLA0 + ch] == f.regs[CNTLA0 + ch].(b6 := false, b5 := false)
    && g.regs[STAT0 + ch]
       == f.regs[STAT0 + ch].(b7 := false, b6 := false, b5 := false, b4 := false, b1 := true)
    && g.tx.Of(ch) == Tx(false, None, 0, false, f.tx.Of(ch).output) && g.rx.Of(ch) == Rx(None, 0, false, [])
  }

  /** The guest has written `value` to register `index`. */
  ghost predicate WriteDid(f: Fields, index: nat, value: Bits, g: Fields)
    requires index < IO_REGISTER_COUNT
  {
    && SameWorld(f, g)
    && if index < CNTLB0 then CntlaDid(f, index, value, g)
       else if index < STAT0 then CntlbDid(f, index - CNTLB0, value, g)
       else if index < TDR0 then StatDid(f, index - STAT0, value, g)
       else if index < RDR0 then TdrDid(f, index - TDR0, value, g)
       else if index < CNTR then RdrDid(f, index - RDR0, value, g)
       else if index == CNTR then CntrDid(f, value, g)
       else if index == TRD then TrdDid(f, value, g)
       else if index in {TMDR0L, TMDR0H, TMDR1L, TMDR1H} then TmdrDid(f, index, value, g)
       else if index == ASEXT0 || index == ASEXT0 + 1 then AsextDid(f, index - ASEXT0, value, g)
       else if index == ICR then IcrDid(f, value, g)
       else PlainDid(f, index, value, g)
  }

  // ------------------------------------------------------------------------------------------- read

  /** What the guest sees of a register that is shown as it is, but for bits that read as zero. */
  ghost predicate Readable(index: nat, b: Bits, v: Bits) {
    if index == CNTR then v == b.(b3 := false)
    else if index == ASEXT0 + 1 then v == b.(b6 := false, b5 := false)
    else if index == SAR0L + 2 || index == DAR0L + 2 || index == MAR1L + 2 then
      v == b.(b7 := false, b6 := false, b5 := false, b4 := false)
    else if index == 0x2d then v == b.(b5 := false, b4 := false)
    else if index == DSTAT then v == b.(b1 := false)
    else if index == DMODE then v == b.(b7 := false, b6 := false, b0 := false)
    else if index == ITC then v == b.(b5 := false, b4 := false, b3 := false)
    else if index == 0x33 || index == ICR then v == Bits(b.b7, b.b6, b.b5, false, false, false, false, false)
    else if index == 0x36 then v == b.(b5 := false, b4 := false, b3 := false, b2 := false)
    else if index == 0x3e then v == Bits(b.b7, false, b.b5, false, false, false, false, false)
    else v == b
  }

  /** CTS as CNTLB shows it; the carrier and an empty TDR, unless CTS hides it, as STAT shows them; a high byte of
      a counter as it was when the low byte was read. */
  ghost predicate Gives(f: Fields, index: nat, value: Bits)
    requires index < IO_REGISTER_COUNT
  {
    var b := f.regs[index];
    if !Present(f.variant, index) then value == ZERO
    else if index == CNTLB0 then value == b.(b5 := f.cts.first)
    else if index == CNTLB0 + 1 then value == b.(b5 := f.cts.second && f.regs[STAT1].b2)
    else if index == STAT0 then
      value == b.(b2 := f.dcdLatched,
                  b1 := !f.tx.first.tdrFull
                        && !(f.cts.first && (f.variant == Z80180 || !f.regs[ASEXT0].b5)))
    else if index == STAT1 then value == b.(b1 := !f.tx.second.tdrFull && !(f.cts.second && b.b2))
    else if index == TMDR0H && f.highLatchValid.first then value == f.highLatch.first
    else if index == TMDR1H && f.highLatchValid.second then value == f.highLatch.second
    else Readable(index, b, value)
  }

  /** The oldest received byte is gone, and the next one, if any, shows. */
  ghost predicate RdrLeft(f: Fields, ch: Ch, g: Fields) {
    var (r, q) := (f.rx.Of(ch), g.rx.Of(ch));
    && q == r.(fifo := if r.fifo == [] then [] else r.fifo[1..])
    && g.regs[RDR0 + ch] == (if q.fifo == [] then f.regs[RDR0 + ch] else q.fifo[0])
    && g.regs[STAT0 + ch] == f.regs[STAT0 + ch].(b7 := q.fifo != [], b1 := !f.tx.Of(ch).tdrFull)
    && OnlyTwo(f, g, RDR0 + ch, STAT0 + ch)
    && g.tx == f.tx && SameAsci(f, g, 1 - ch) && SameCsio(f, g) && SameLatches(f, g)
  }

  /** A counter byte has been read: its timer's flag goes off if it was armed; the low byte latches the high one, and
      the high byte uses the latch up. */
  ghost predicate TmdrLeft(f: Fields, index: nat, g: Fields) {
    var second := index == TMDR1L || index == TMDR1H;
    var low := index == TMDR0L || index == TMDR1L;
    && OnlyTwo(f, g, TCR, TCR)
    && g.regs[TCR] == f.regs[TCR].(b6 := f.regs[TCR].b6 && (second || !f.clearArmed.first),
                                   b7 := f.regs[TCR].b7 && !(second && f.clearArmed.second))
    && g.clearArmed == (if second then Two(f.clearArmed.first, false) else Two(false, f.clearArmed.second))
    && g.highLatchValid == (if second then Two(f.highLatchValid.first, low) else Two(low, f.highLatchValid.second))
    && g.highLatch == (if !low then f.highLatch
                       else if second then Two(f.highLatch.first, f.regs[TMDR1H])
                       else Two(f.regs[TMDR0H], f.highLatch.second))
    && SameUnits(f, g) && g.dcdLatched == f.dcdLatched && g.dcdIrq == f.dcdIrq
  }

  /** The guest has read register `index`. */
  ghost predicate ReadLeft(f: Fields, index: nat, g: Fields) {
    && SameWorld(f, g)
    && if index == RDR0 || index == RDR0 + 1 then RdrLeft(f, index - RDR0, g)
       else if index in {TMDR0L, TMDR0H, TMDR1L, TMDR1H} then TmdrLeft(f, index, g)
       else
         && SameUnits(f, g) && g.highLatch == f.highLatch && g.highLatchValid == f.highLatchValid
         && g.regs == (if index == TRD then f.regs[CNTR := f.regs[CNTR].(b7 := false)] else f.regs)
         && g.clearArmed == (if index == TCR then Two(f.regs[TCR].b6, f.regs[TCR].b7) else f.clearArmed)
         && g.dcdIrq == (f.dcdIrq && index != STAT0)
         && g.dcdLatched == (f.dcdLatched && (index != STAT0 || f.dcd))
  }

  // ----------------------------------------------------------------------------------------- reset

  /** The registers after a reset: counters and reload values full, the serial units off and their clocks stopped, the
      logical address space as it is in the physical one, DMA off, the first external interrupt on. The bytes of the
      serial units and the addresses of the DMA channels stay. */
  ghost predicate ResetTells(variant: Variant, before: RegFile, r: RegFile) {
    forall i :: 0 <= i < IO_REGISTER_COUNT ==>
      if TDR0 <= i <= RDR0 + 1 || i == TRD || SAR0L <= i <= IAR1H || BCR1L <= i <= BCR1H then r[i] == before[i]
      else r[i].Value() == (if TMDR0L <= i <= RLDR0H || TMDR1L <= i <= FRC then 0xff
                            else if i == CNTLA0 then 0x10
                            else if CNTLB0 <= i < STAT0 || i == CNTR then 7
                            else if i == STAT0 || i == STAT1 then 2
                            else if i == DSTAT then 0x30 else if i == DCNTL || i == CBAR then 0xf0
                            else if i == ITC then 1 else if i == 0x36 then 0xc0 else if i == 0x3e then 0xe0
                            else if i == 0x1e && variant == Z8S180 then 0x7f else 0)
  }

  lemma ResetIs(variant: Variant, before: RegFile, r: RegFile)
    requires AfterReset(variant, before, r)
    ensures ResetTells(variant, before, r)
  {
    hide Bits.Value, Byte;
    forall i | 0 <= i < IO_REGISTER_COUNT && !SurvivesReset(i)
      ensures r[i].Value() == if Available(variant, i) then ResetValue(i) else 0
    {
      ByteValue(ResetValue(i));
      ByteValue(0);
      assert Byte(0) == ZERO by {
        MaskBytes();
      }
    }
  }

  // -------------------------------------------------------------------------------------- the host

  /** The channel listens: it is on, and no lost carrier stops it. */
  ghost predicate Listens(f: Fields, ch: Ch) {
    && !f.regs[ICR].b5 && f.regs[CNTLA0 + ch].b6
    && !(ch == 0 && f.dcdLatched && (f.variant == Z80180 || !f.regs[ASEXT0].b6))
  }

  /** A byte is in the shifter, for as long as a frame takes. */
  ghost predicate HearDid(f: Fields, ch: Ch, b: Bits, g: Fields) {
    && g.rx.Of(ch) == (match FrameOf(f.variant, f.regs, ch)
                       case None => Rx(Some(b), 0, false, f.rx.Of(ch).fifo)
                       case Some(frame) => Rx(Some(b), frame, true, f.rx.Of(ch).fifo))
    && g.regs == f.regs && g.tx == f.tx && SameAsci(f, g, 1 - ch) && SameCsio(f, g) && SameLatches(f, g)
  }

  ghost predicate PopDid(f: Fields, ch: Ch, b: Bits, g: Fields) {
    && f.tx.Of(ch).output == [b] + g.tx.Of(ch).output
    && g.tx.Of(ch) == f.tx.Of(ch).(output := g.tx.Of(ch).output)
    && g.regs == f.regs && g.rx == f.rx && SameAsci(f, g, 1 - ch) && SameCsio(f, g) && SameLatches(f, g)
  }

  /** A carrier that is lost is latched and asks for an interrupt; if it may, it ends reception. */
  ghost predicate DcdDid(f: Fields, level: bool, g: Fields) {
    var (lost, stat) := (level && !f.dcd, f.regs[STAT0]);
    && g.dcd == level && g.dcdLatched == (f.dcdLatched || lost) && g.dcdIrq == (f.dcdIrq || lost)
    && (if lost && (f.variant == Z80180 || !f.regs[ASEXT0].b6) then
          && g.rx.first == Rx(None, 0, false, []) && Only(f, g, {STAT0})
          && g.regs[STAT0] == stat.(b7 := false, b6 := false, b5 := false, b4 := false, b1 := !f.tx.first.tdrFull)
        else g.rx.first == f.rx.first && g.regs == f.regs)
    && g.tx == f.tx && g.rx.second == f.rx.second && SameCsio(f, g)
    && g.highLatch == f.highLatch && g.highLatchValid == f.highLatchValid && g.clearArmed == f.clearArmed
  }

  // ------------------------------------------------------------- what the views of the channels say

  ghost predicate Shown(f: Fields, ch: Ch, v: ChannelView) {
    v.line == LineOf(f, ch) && v.setup == LineSetupAt(f.variant, f.regs, ch)
  }

  lemma OtherIs(f: Fields, g: Fields, ch: Ch, v: ChannelView, w: ChannelView)
    requires Shown(f, ch, v) && Shown(g, ch, w) && v == w
    ensures SameAsci(f, g, ch)
  {
  }

  lemma BeginIs(f: Fields, ch: Ch, t: Tx)
    ensures Begins(f.regs, f.variant, ch, t, StartTransmit(t, LineSetupAt(f.variant, f.regs, ch)))
  {
    hide FrameAt, FrameOf;
    FrameIs(f.variant, f.regs, ch);
  }

  lemma CntlaIs(f: Fields, ch: Ch, value: Bits, g: Fields, v: ChannelView, w: ChannelView)
    requires Shown(f, ch, v) && Shown(g, ch, w) && g.variant == f.variant
    requires var (before, next) := (f.regs[CNTLA0 + ch], g.regs[CNTLA0 + ch]);
             w == v.Controlled(LineSetupAt(g.variant, g.regs, ch), !next.b3, before.b6 && !next.b6,
                               before.b5 && !next.b5)
    requires g.regs[CNTLA0 + ch] == ControlByte(value, f.regs[ICR].b5)
    requires OnlyTwo(f, g, CNTLA0 + ch, STAT0 + ch) && SameAsci(f, g, 1 - ch) && SameCsio(f, g) && SameLatches(f, g)
    ensures CntlaDid(f, ch, value, g)
  {
    hide LineSetupAt, OnlyTwo, ControlByte, SameLatches, SameCsio, SameAsci, ChannelView.Controlled, CntlaDid;
    var (before, next) := (f.regs[CNTLA0 + ch], g.regs[CNTLA0 + ch]);
    ControlIs(value, f.regs[ICR].b5);
    ControlledLine(v, LineSetupAt(g.variant, g.regs, ch), !next.b3, before.b6 && !next.b6, before.b5 && !next.b5);
    CntlaFrom(f, ch, value, g);
  }

  lemma CntlaFrom(f: Fields, ch: Ch, value: Bits, g: Fields)
    requires g.variant == f.variant
    requires var (before, next) := (f.regs[CNTLA0 + ch], g.regs[CNTLA0 + ch]);
             && Enables(value, f.regs[ICR].b5, next)
             && g.rx.Of(ch) == RxOff(f.rx.Of(ch), before.b6 && !next.b6)
             && g.tx.Of(ch) == StartTransmit(TxOff(f.tx.Of(ch), before.b5 && !next.b5),
                                             LineSetupAt(g.variant, g.regs, ch))
             && ErrorsOff(f.regs[STAT0 + ch], !next.b3, f.rx.Of(ch).fifo != [], g.tx.Of(ch).tdrFull,
                          g.regs[STAT0 + ch])
    requires OnlyTwo(f, g, CNTLA0 + ch, STAT0 + ch) && SameAsci(f, g, 1 - ch) && SameCsio(f, g) && SameLatches(f, g)
    ensures CntlaDid(f, ch, value, g)
  {
    hide LineSetupAt, Begins, StartTransmit, OnlyTwo, SameLatches, SameCsio, SameAsci, Enables, ErrorsOff, TxOff, RxOff;
    BeginIs(g, ch, TxOff(f.tx.Of(ch), f.regs[CNTLA0 + ch].b5 && !g.regs[CNTLA0 + ch].b5));
  }

  /** What becomes of the line of a channel whose CNTLA changes. */
  lemma ControlledLine(v: ChannelView, setup': LineSetup, clear: bool, rxOff: bool, txOff: bool)
    ensures var (w, t, r, stat) := (v.Controlled(setup', clear, rxOff, txOff).line, v.line.tx, v.line.rx, v.line.stat);
            && w.tx == StartTransmit(TxOff(t, txOff), setup') && w.rx == RxOff(r, rxOff)
            && ErrorsOff(stat, clear, r.fifo != [], w.tx.tdrFull, w.stat)
  {
    hide ReceptionDropped, StartTransmit;
  }

  lemma ControlIs(value: Bits, stop: bool)
    ensures Enables(value, stop, ControlByte(value, stop))
  {
  }

  lemma CntlbIs(f: Fields, ch: Ch, value: Bits, g: Fields, v: ChannelView, w: ChannelView)
    requires Shown(f, ch, v) && Shown(g, ch, w) && g.variant == f.variant
    requires g.regs == f.regs[CNTLB0 + ch := value] && w == v.Reclocked(LineSetupAt(g.variant, g.regs, ch))
    requires SameAsci(f, g, 1 - ch) && SameCsio(f, g) && SameLatches(f, g)
    ensures CntlbDid(f, ch, value, g)
  {
    hide FrameAt, FrameOf;
    FrameIs(g.variant, g.regs, ch);
  }

  lemma StatIs(f: Fields, ch: Ch, value: Bits, g: Fields)
    requires g.regs[STAT0 + ch] == Merge(f.regs[STAT0 + ch], value, Byte(WriteMask(STAT0 + ch)))
    requires SnapshotOf(g).csio == if ch == 1 && g.regs[STAT1].b2 then AbortedReceive(SnapshotOf(f).csio)
                                   else SnapshotOf(f).csio
    requires OnlyTwo(f, g, STAT0 + ch, CNTR) && g.tx == f.tx && g.rx == f.rx && SameLatches(f, g)
    ensures StatDid(f, ch, value, g)
  {
    assert WriteMask(STAT0 + ch) == if ch == 0 then 0x09 else 0x0d;
  }

  /** A channel after IOSTOP. */
  lemma StoppedAsciIs(f: Fields, g: Fields, ch: Ch, v: ChannelView, w: ChannelView)
    requires Shown(f, ch, v) && Shown(g, ch, w) && w == v.Stopped(LineSetupAt(g.variant, g.regs, ch))
    requires g.regs[CNTLA0 + ch] == ControlByte(f.regs[CNTLA0 + ch], true)
    ensures StoppedAsci(f, g, ch)
  {
    hide LineSetupAt, ReceptionDropped;
  }

  lemma StoppedAsciStays(f: Fields, g: Fields, g': Fields)
    requires StoppedAsci(f, g, 0) && StoppedAsci(f, g, 1) && g'.tx == g.tx && g'.rx == g.rx
    requires Only(g, g', {CNTR})
    ensures StoppedAsci(f, g', 0) && StoppedAsci(f, g', 1)
  {
  }

  lemma StoppedAsciFrom(f: Fields, f': Fields, g: Fields)
    requires StoppedAsci(f', g, 0) && StoppedAsci(f', g, 1) && f'.tx == f.tx && f'.rx == f.rx
    requires Only(f, f', {ICR})
    ensures StoppedAsci(f, g, 0) && StoppedAsci(f, g, 1)
  {
  }

  lemma TdrIs(f: Fields, ch: Ch, value: Bits, g: Fields, v: ChannelView, w: ChannelView)
    requires Shown(f, ch, v) && Shown(g, ch, w) && g.variant == f.variant && g.regs[TDR0 + ch] == value
    requires w == v.Filled(LineSetupAt(g.variant, g.regs, ch), f.regs[ICR].b5).Started().Synced()
    requires OnlyTwo(f, g, TDR0 + ch, STAT0 + ch) && SameAsci(f, g, 1 - ch) && SameCsio(f, g) && SameLatches(f, g)
    ensures TdrDid(f, ch, value, g)
  {
    hide LineSetupAt, Begins, StartTransmit, OnlyTwo;
    BeginIs(g, ch, f.tx.Of(ch).(tdrFull := !f.regs[ICR].b5));
  }

  lemma AsextIs(f: Fields, ch: Ch, value: Bits, g: Fields, v: ChannelView, w: ChannelView)
    requires Shown(f, ch, v) && Shown(g, ch, w) && g.variant == f.variant
    requires g.regs[ASEXT0 + ch] == Merge(f.regs[ASEXT0 + ch], value, Byte(WriteMask(ASEXT0 + ch)))
    requires var u := v.(setup := LineSetupAt(g.variant, g.regs, ch));
             w == if ch == 0 && (g.variant != Z8S180 || !g.regs[ASEXT0].b6) && f.dcdLatched then u.Aborted(true)
                  else u
    requires OnlyTwo(f, g, ASEXT0 + ch, STAT0 + ch) && SameAsci(f, g, 1 - ch) && g.tx == f.tx
    requires SameCsio(f, g) && SameLatches(f, g)
    ensures AsextDid(f, ch, value, g)
  {
    hide LineSetupAt;
    assert WriteMask(ASEXT0 + ch) == if ch == 0 then 0xfd else 0x9d;
  }

  lemma CntrIs(f: Fields, value: Bits, g: Fields)
    requires g.regs == f.regs[CNTR := CntrByte(f.regs[CNTR], value, f.regs[ICR].b5, f.regs[STAT1].b2)]
    requires SnapshotOf(g).csio == CsioControlled(SnapshotOf(f).csio, g.regs[CNTR])
    requires g.tx == f.tx && g.rx == f.rx && SameLatches(f, g)
    ensures CntrDid(f, value, g)
  {
    hide TransferCycles, TransferOf;
    TransferIs(g.regs[CNTR]);
    assert Byte(WriteMask(CNTR)) == Bits(false, true, true, true, false, true, true, true);
  }

  lemma TmdrStored(f: Fields, index: nat, value: Bits, g: Fields)
    requires index in {TMDR0L, TMDR0H, TMDR1L, TMDR1H}
    requires var ch: Ch := if index >= TMDR1L then 1 else 0;
             var stands := !(if ch == 1 then f.regs[TCR].b1 else f.regs[TCR].b0);
             && g.regs == (if stands then f.regs[index := value] else f.regs)
             && g.highLatchValid == if stands then f.highLatchValid.With(ch, false) else f.highLatchValid
    requires SameUnits(f, g) && g.highLatch == f.highLatch && g.clearArmed == f.clearArmed
    requires g.dcdLatched == f.dcdLatched && g.dcdIrq == f.dcdIrq
    ensures TmdrDid(f, index, value, g)
  {
  }

  lemma IcrIs(f: Fields, value: Bits, g: Fields)
    requires g.regs[ICR] == Merge(f.regs[ICR], value, Byte(WriteMask(ICR))) && SameLatches(f, g)
    requires forall i :: 0 <= i < IO_REGISTER_COUNT && i != ICR && !Stops(i) ==> g.regs[i] == f.regs[i]
    requires if g.regs[ICR].b5 then
               && g.csioRxShift.None? && g.csioCycles == 0 && !g.csioClocked && g.csioOutput == f.csioOutput
               && StoppedAsci(f, g, 0) && StoppedAsci(f, g, 1)
               && g.regs[CNTR] == f.regs[CNTR].(b7 := false, b5 := false, b4 := false)
             else g.regs == f.regs[ICR := g.regs[ICR]] && SameUnits(f, g)
    ensures IcrDid(f, value, g)
  {
    hide StoppedAsci, Byte;
    MaskBytes();
    assert WriteMask(ICR) == 0xe0;
  }

  lemma DstatIs(b: Bits, v: Bits)
    ensures PlainByte(DSTAT, b, v, DstatByte(b, v))
  {
  }

  lemma ItcIs(b: Bits, v: Bits)
    ensures PlainByte(ITC, b, v, ItcByte(b, v))
  {
  }

  lemma PlainWhole(index: nat, b: Bits, v: Bits)
    requires index in {CBR, BBR, CBAR}
    ensures PlainByte(index, b, v, v)
  {
  }

  /** The bits that a plain store changes. */
  lemma PlainIs(index: nat, b: Bits, v: Bits)
    requires Available(Z8S180, index) && WriteEffectOf(index) in {Store, WriteTcr, WriteMmu}
    ensures PlainByte(index, b, v, Merge(b, v, Byte(WriteMask(index))))
  {
    hide Byte, Available, WriteEffectOf, WriteMask, PlainByte, Merge;
    FixedBits(index);
    MaskBytes();
    if index in {SAR0L + 2, DAR0L + 2, MAR1L + 2} {
      LowHalf(index, b, v);
    } else if index in {FRC, TCR, DMODE, 0x1e} {
      CounterBits(b, v);
      TimerBits(b, v);
      ModeBits(b, v);
      MultiplierBits(b, v);
    } else if index in {0x2d, 0x33, 0x36, 0x3e} {
      PortBits(b, v);
      RefreshBits(b, v);
      HighBits(0x33, b, v);
      HighBits(0x3e, b, v);
    } else {
      AllBits(index, b, v);
    }
  }

  lemma LowHalf(index: nat, b: Bits, v: Bits)
    requires index in {SAR0L + 2, DAR0L + 2, MAR1L + 2}
    ensures PlainByte(index, b, v, Merge(b, v, Bits(false, false, false, false, true, true, true, true)))
  {
  }

  lemma CounterBits(b: Bits, v: Bits)
    ensures PlainByte(FRC, b, v, Merge(b, v, ZERO))
  {
  }

  lemma TimerBits(b: Bits, v: Bits)
    ensures PlainByte(TCR, b, v, Merge(b, v, Bits(false, false, true, true, true, true, true, true)))
  {
  }

  lemma ModeBits(b: Bits, v: Bits)
    ensures PlainByte(DMODE, b, v, Merge(b, v, Bits(false, false, true, true, true, true, true, false)))
  {
  }

  lemma MultiplierBits(b: Bits, v: Bits)
    ensures PlainByte(0x1e, b, v, Merge(b, v, Bits(true, false, false, false, false, false, false, false)))
  {
  }

  lemma PortBits(b: Bits, v: Bits)
    ensures PlainByte(0x2d, b, v, Merge(b, v, Bits(true, true, false, false, true, true, true, true)))
  {
  }

  lemma RefreshBits(b: Bits, v: Bits)
    ensures PlainByte(0x36, b, v, Merge(b, v, Bits(true, true, false, false, false, false, true, true)))
  {
  }

  lemma HighBits(index: nat, b: Bits, v: Bits)
    requires index == 0x33 || index == 0x3e
    ensures PlainByte(index, b, v, Merge(b, v, Bits(true, true, true, false, false, false, false, false)))
  {
  }

  lemma AllBits(index: nat, b: Bits, v: Bits)
    requires index !in {SAR0L + 2, DAR0L + 2, MAR1L + 2, FRC, TCR, DMODE, 0x1e, 0x2d, 0x33, 0x36, 0x3e, DSTAT, ITC}
    ensures PlainByte(index, b, v, Merge(b, v, Bits(true, true, true, true, true, true, true, true)))
  {
  }

  /** Which registers have fixed bits. */
  lemma FixedBits(index: nat)
    requires Available(Z8S180, index) && WriteEffectOf(index) in {Store, WriteTcr, WriteMmu}
    ensures WriteMask(index) == (if index == FRC then 0 else if index == TCR then 0x3f
                                 else if index in {SAR0L + 2, DAR0L + 2, MAR1L + 2} then 0x0f
                                 else if index == DMODE then 0x3e else if index == 0x1e then 0x80
                                 else if index == 0x2d then 0xcf else if index == 0x36 then 0xc3
                                 else if index == 0x33 || index == 0x3e then 0xe0 else 0xff)
    ensures index != DSTAT && index != ITC
  {
  }

  lemma MaskBytes()
    ensures Byte(0) == ZERO && Byte(0x0f) == Bits(false, false, false, false, true, true, true, true)
    ensures Byte(0x3f) == Bits(false, false, true, true, true, true, true, true)
    ensures Byte(0x3e) == Bits(false, false, true, true, true, true, true, false)
    ensures Byte(0x80) == Bits(true, false, false, false, false, false, false, false)
    ensures Byte(0xcf) == Bits(true, true, false, false, true, true, true, true)
    ensures Byte(0xc3) == Bits(true, true, false, false, false, false, true, true)
    ensures Byte(0xe0) == Bits(true, true, true, false, false, false, false, false)
    ensures Byte(0xff) == Bits(true, true, true, true, true, true, true, true)
  {
  }

  /** What time and the guest leave in RDR and its FIFO. */
  lemma RdrIs(f: Fields, ch: Ch, g: Fields, v: ChannelView, w: ChannelView)
    requires Shown(f, ch, v) && Shown(g, ch, w) && w == v.Taken() && g.tx == f.tx
    requires OnlyTwo(f, g, RDR0 + ch, STAT0 + ch) && SameAsci(f, g, 1 - ch) && SameCsio(f, g) && SameLatches(f, g)
    ensures RdrLeft(f, ch, g)
  {
    hide LineSetupAt;
  }

  lemma HearIs(f: Fields, ch: Ch, b: Bits, g: Fields, v: ChannelView, w: ChannelView)
    requires Shown(f, ch, v) && Shown(g, ch, w) && w == v.Heard(b)
    requires g.regs == f.regs && g.tx == f.tx && SameAsci(f, g, 1 - ch) && SameCsio(f, g) && SameLatches(f, g)
    ensures HearDid(f, ch, b, g)
  {
    hide FrameAt, FrameOf;
    FrameIs(f.variant, f.regs, ch);
  }

  lemma PopIs(f: Fields, ch: Ch, b: Bits, g: Fields, v: ChannelView, w: ChannelView)
    requires Shown(f, ch, v) && Shown(g, ch, w) && v.line.tx.output != [] && w == v.Popped()
    requires b == f.tx.Of(ch).output[0]
    requires g.regs == f.regs && g.rx == f.rx && SameAsci(f, g, 1 - ch) && SameCsio(f, g) && SameLatches(f, g)
    ensures PopDid(f, ch, b, g)
  {
    hide LineSetupAt;
  }

  lemma DcdIs(f: Fields, level: bool, g: Fields, v: ChannelView, w: ChannelView)
    requires Shown(f, 0, v) && Shown(g, 0, w) && g.variant == f.variant
    requires var lost := !f.dcd && level;
             && g.dcd == level && g.dcdLatched == (f.dcdLatched || lost) && g.dcdIrq == (f.dcdIrq || lost)
             && w == if lost && (f.variant != Z8S180 || !f.regs[ASEXT0].b6) then v.Aborted(true) else v
    requires Only(f, g, {STAT0}) && g.tx == f.tx && g.rx.second == f.rx.second && SameCsio(f, g)
    requires g.highLatch == f.highLatch && g.highLatchValid == f.highLatchValid && g.clearArmed == f.clearArmed
    ensures DcdDid(f, level, g)
  {
    hide LineSetupAt;
  }

  /** A counter byte read. */
  lemma TmdrIs(f: Fields, index: nat, g: Fields)
    requires index in {TMDR0L, TMDR0H, TMDR1L, TMDR1H}
    requires var ch: Ch := if index >= TMDR1L then 1 else 0;
             var high := if ch == 0 then TMDR0H else TMDR1H;
             && g.highLatch == (if index != high then f.highLatch.With(ch, f.regs[high]) else f.highLatch)
             && g.highLatchValid == f.highLatchValid.With(ch, index != high)
             && g.clearArmed == f.clearArmed.With(ch, false)
             && g.regs == f.regs[TCR := FlagCleared(f.regs[TCR], ch, f.clearArmed.Of(ch))]
    requires SameUnits(f, g) && g.dcdLatched == f.dcdLatched && g.dcdIrq == f.dcdIrq
    ensures TmdrLeft(f, index, g)
  {
  }

  /** Which registers have bits that read as zero. */
  lemma HiddenBits(index: nat)
    requires Available(Z8S180, index)
    ensures ReadMask(index) == (if index == CNTR then 0xf7 else if index == ASEXT0 + 1 then 0x9f
                                else if index in {SAR0L + 2, DAR0L + 2, MAR1L + 2} then 0x0f
                                else if index == 0x2d then 0xcf else if index == DSTAT then 0xfd
                                else if index == DMODE then 0x3e else if index == ITC then 0xc7
                                else if index == 0x33 || index == ICR then 0xe0
                                else if index == 0x36 then 0xc3 else if index == 0x3e then 0xa0 else 0xff)
  {
  }

  lemma ReadableIs(index: nat, b: Bits)
    requires Available(Z8S180, index)
    ensures Readable(index, b, Merge(ZERO, b, Byte(ReadMask(index))))
  {
    hide Available, ReadMask, Readable, Byte;
    HiddenBits(index);
    if index in {SAR0L + 2, DAR0L + 2, MAR1L + 2} {
      ReadNibble(index, b);
    } else if index in {CNTR, ASEXT0 + 1, 0x2d, DSTAT} {
      ReadSerial(index, b);
      ReadStatus(index, b);
    } else if index in {DMODE, ITC, 0x36, 0x3e} {
      ReadMode(index, b);
      ReadControl(index, b);
    } else if index == 0x33 || index == ICR {
      ReadHigh(index, b);
    } else {
      ReadWhole(index, b);
    }
  }

  lemma ReadNibble(index: nat, b: Bits)
    requires index in {SAR0L + 2, DAR0L + 2, MAR1L + 2}
    ensures Readable(index, b, Merge(ZERO, b, Byte(0x0f)))
  {
  }

  lemma ReadSerial(index: nat, b: Bits)
    ensures index == CNTR ==> Readable(index, b, Merge(ZERO, b, Byte(0xf7)))
    ensures index == ASEXT0 + 1 ==> Readable(index, b, Merge(ZERO, b, Byte(0x9f)))
  {
  }

  lemma ReadStatus(index: nat, b: Bits)
    ensures index == 0x2d ==> Readable(index, b, Merge(ZERO, b, Byte(0xcf)))
    ensures index == DSTAT ==> Readable(index, b, Merge(ZERO, b, Byte(0xfd)))
  {
  }

  lemma ReadMode(index: nat, b: Bits)
    ensures index == DMODE ==> Readable(index, b, Merge(ZERO, b, Byte(0x3e)))
    ensures index == ITC ==> Readable(index, b, Merge(ZERO, b, Byte(0xc7)))
  {
  }

  lemma ReadControl(index: nat, b: Bits)
    ensures index == 0x36 ==> Readable(index, b, Merge(ZERO, b, Byte(0xc3)))
    ensures index == 0x3e ==> Readable(index, b, Merge(ZERO, b, Byte(0xa0)))
  {
  }

  lemma ReadHigh(index: nat, b: Bits)
    requires index == 0x33 || index == ICR
    ensures Readable(index, b, Merge(ZERO, b, Byte(0xe0)))
  {
  }

  lemma ReadWhole(index: nat, b: Bits)
    requires index !in {SAR0L + 2, DAR0L + 2, MAR1L + 2, CNTR, ASEXT0 + 1, 0x2d, DSTAT, DMODE, ITC, 0x36, 0x3e, 0x33,
                        ICR}
    ensures Readable(index, b, Merge(ZERO, b, Byte(0xff)))
  {
  }
}
