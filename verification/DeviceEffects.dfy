/**
 What the devices do, told by their registers and fields alone: which request stands in which bit, and what
 elapsed cycles do to every device.
 */
module DeviceEffects {
  import opened Basics
  import opened DeviceState
  import opened DeviceTime
  import opened IoRegisters
  import opened Registers8
  import opened SerialUnits
  import opened Timers

  /** The fields of the devices, as the source has them. */
  datatype Fields = Fields(variant: Variant, regs: RegFile, irq: Bits, cycleCount: nat, frcRemainder: nat,
                           prtRemainder: nat, cts: Two<bool>, dcd: bool, dcdLatched: bool, dcdIrq: bool, tx: Two<Tx>,
                           rx: Two<Rx>, csioRxShift: Option<Bits>, csioCycles: nat, csioClocked: bool,
                           csioOutput: seq<Bits>, highLatch: Two<Bits>, highLatchValid: Two<bool>,
                           clearArmed: Two<bool>)

  // ------------------------------------------------------------------------------ the request mask

  /** What makes ASCI channel `ch` ask for an interrupt. */
  ghost predicate AsciAsks(f: Fields, ch: Ch) {
    var stat := f.regs[STAT0 + ch];
    || (stat.b3
        && (|| stat.b6 || stat.b5 || stat.b4
            || (stat.b7 && (f.variant == Z80180 || f.regs[ASEXT0 + ch].b7))
            || (ch == 0 && f.dcdIrq)))
    || (stat.b0 && !f.tx.Of(ch).tdrFull
        && !(f.cts.Of(ch) && if ch == 0 then f.variant == Z80180 || !f.regs[ASEXT0].b5 else f.regs[STAT1].b2))
  }

  /** Bits 0 and 1: a timer flag with its enable. Bits 2 and 3: a DMA channel that is off with its enable. Bit 4:
      the end of a CSI/O transfer with its enable. Bits 5 and 6: the ASCI channels. */
  ghost predicate MaskTells(f: Fields) {
    var (tcr, dstat, cntr) := (f.regs[TCR], f.regs[DSTAT], f.regs[CNTR]);
    && (f.irq.b0 <==> tcr.b6 && tcr.b4) && (f.irq.b1 <==> tcr.b7 && tcr.b5)
    && (f.irq.b2 <==> dstat.b2 && !dstat.b6) && (f.irq.b3 <==> dstat.b3 && !dstat.b7)
    && (f.irq.b4 <==> cntr.b7 && cntr.b6)
    && (f.irq.b5 <==> AsciAsks(f, 0)) && (f.irq.b6 <==> AsciAsks(f, 1)) && !f.irq.b7
  }

  // ------------------------------------------------------------------------------ how fast units run

  ghost function Bit(b: bool): nat {
    if b then 1 else 0
  }

  ghost function Power(n: nat): nat {
    if n == 0 then 1 else 2 * Power(n - 1)
  }

  ghost function Times(a: nat, b: nat): nat {
    a * b
  }

  ghost function WordAt(r: RegFile, low: nat): nat
    requires low + 1 < IO_REGISTER_COUNT
  {
    r[low].Value() + 256 * r[low + 1].Value()
  }

  /** The cycles of a frame: a start bit, seven or eight data bits, a parity or multiprocessor bit, one or two stop
      bits, each of as many cycles as the generator takes; none if it is off. */
  ghost function FrameFrom(variant: Variant, a: Bits, b: Bits, x: Bits, constant: nat, speed: nat): Option<nat> {
    var length := 9 + Bit(a.b2) + Bit(a.b1 || b.b6) + Bit(a.b0);
    var sampling := if variant == Z8S180 && x.b4 then 1 else if b.b3 then 64 else 16;
    if variant == Z8S180 && x.b3 then Some(Times(Times(length, sampling), 2 * constant + 4))
    else if speed == 7 then None
    else Some(Times(Times(length, sampling), Times(if b.b5 then 30 else 10, Power(speed))))
  }

  ghost function FrameOf(variant: Variant, r: RegFile, ch: Ch): Option<nat> {
    FrameFrom(variant, r[CNTLA0 + ch], r[CNTLB0 + ch], r[ASEXT0 + ch], WordAt(r, ASTC0L + 2 * ch),
              r[CNTLB0 + ch].Value() % 8)
  }

  lemma DivisorIs(b: Bits)
    ensures Divisor(b) == Power(b.Low3()) && b.Value() % 8 == b.Low3()
    ensures b.b0 && b.b1 && b.b2 <==> b.Value() % 8 == 7
  {
    ValueParts(b);
    assert Power(0) == 1 && Power(1) == 2 && Power(2) == 4 && Power(3) == 8;
    assert Power(4) == 16 && Power(5) == 32 && Power(6) == 64 && Power(7) == 128;
  }

  lemma Regroups(a: nat, b: nat, c: nat)
    ensures Times(Times(a, b), c) == Times(a, Times(c, b))
  {
  }

  lemma FrameIs(variant: Variant, r: RegFile, ch: Ch)
    ensures FrameAt(variant, r, ch) == FrameOf(variant, r, ch)
  {
    hide Bits.Value, Power, Divisor, FrameFrom, FrameCycles;
    var b := r[CNTLB0 + ch];
    DivisorIs(b);
    FrameCyclesAre(variant, r[CNTLA0 + ch], b, r[ASEXT0 + ch], WordAt(r, ASTC0L + 2 * ch));
  }

  lemma FrameCyclesAre(variant: Variant, a: Bits, b: Bits, x: Bits, constant: nat)
    ensures FrameCycles(variant, a, b, x, constant) == FrameFrom(variant, a, b, x, constant, b.Low3())
  {
    hide Power, Divisor, Times, FrameCycles;
    var length := 9 + Bit(a.b2) + Bit(a.b1 || b.b6) + Bit(a.b0);
    var sampling := if variant == Z8S180 && x.b4 then 1 else if b.b3 then 64 else 16;
    DivisorIs(b);
    FrameShape(variant, a, b, x, constant);
    Regroups(length, sampling, 2 * constant + 4);
    Regroups(length, sampling, Times(if b.b5 then 30 else 10, Divisor(b)));
  }

  lemma FrameShape(variant: Variant, a: Bits, b: Bits, x: Bits, constant: nat)
    ensures var length := 9 + Bit(a.b2) + Bit(a.b1 || b.b6) + Bit(a.b0);
            var sampling := if variant == Z8S180 && x.b4 then 1 else if b.b3 then 64 else 16;
            FrameCycles(variant, a, b, x, constant)
            == if variant == Z8S180 && x.b3 then Some(Times(length, Times(2 * constant + 4, sampling)))
               else if b.b0 && b.b1 && b.b2 then None
               else Some(Times(length, Times(Times(if b.b5 then 30 else 10, Divisor(b)), sampling)))
  {
    hide Divisor;
  }

  /** The cycles of a CSI/O transfer of eight bits. */
  ghost function TransferOf(cntr: Bits): Option<nat> {
    if cntr.Value() % 8 == 7 then None else Some(160 * Power(cntr.Value() % 8))
  }

  lemma TransferIs(cntr: Bits)
    ensures TransferCycles(cntr) == TransferOf(cntr)
  {
    hide Bits.Value, Power, Divisor;
    DivisorIs(cntr);
  }

  // --------------------------------------------------------------------------------- elapsed cycles

  /** The free-running counter loses one every ten cycles. */
  ghost predicate FrcRan(f: Fields, n: nat, g: Fields) {
    && g.regs[FRC].Value() == (f.regs[FRC].Value() - (f.frcRemainder + n) / 10) % 256
    && g.frcRemainder == (f.frcRemainder + n) % 10
  }

  /** A timer that is enabled has counted every twenty cycles, and its flag is set if it was or if the count
      has come to zero. */
  ghost predicate TimerRan(f: Fields, n: nat, g: Fields, second: bool) {
    var ticks := (f.prtRemainder + n) / 20;
    var (data, reload) := if second then (TMDR1L, RLDR1L) else (TMDR0L, RLDR0L);
    var (enabled, flag) := if second then (f.regs[TCR].b1, f.regs[TCR].b7) else (f.regs[TCR].b0, f.regs[TCR].b6);
    var (count, from) := (WordAt(f.regs, data), WordAt(f.regs, reload));
    && WordAt(g.regs, data) == (if enabled then After(count, from, ticks) else count)
    && (if second then g.regs[TCR].b7 else g.regs[TCR].b6) == (flag || (enabled && Fired(count, from, ticks)))
  }

  ghost predicate TimersRan(f: Fields, n: nat, g: Fields) {
    && TimerRan(f, n, g, false) && TimerRan(f, n, g, true)
    && g.prtRemainder == (f.prtRemainder + n) % 20
    && g.regs[TCR] == f.regs[TCR].(b7 := g.regs[TCR].b7, b6 := g.regs[TCR].b6)
  }

  /** What the transmitter has sent: the byte in the shifter when its cycles are over, and after it the byte in
      TDR, if sending is on, when that has had the cycles of a frame. */
  ghost predicate Sent(f: Fields, n: nat, g: Fields, ch: Ch) {
    var (t, u, tdr, sends) := (f.tx.Of(ch), g.tx.Of(ch), f.regs[TDR0 + ch], f.regs[CNTLA0 + ch].b5);
    if t.shift.None? || !t.clocked then u == t
    else if n < t.cycles then u == t.(cycles := t.cycles - n)
    else if !t.tdrFull || !sends then u == Tx(t.tdrFull, None, 0, false, t.output + [t.shift.value])
    else
      match FrameOf(f.variant, f.regs, ch)
      case None => u == Tx(false, Some(tdr), 0, false, t.output + [t.shift.value])
      case Some(frame) =>
        if n < t.cycles + frame then
          u == Tx(false, Some(tdr), t.cycles + frame - n, true, t.output + [t.shift.value])
        else u == Tx(false, None, 0, false, t.output + [t.shift.value, tdr])
  }

  /** What the receiver has heard: the byte in the shifter when its cycles are over, unless four bytes, or on the
      Z80180 one, are waiting. */
  ghost predicate Heard(f: Fields, n: nat, g: Fields, ch: Ch) {
    var (r, q, capacity) := (f.rx.Of(ch), g.rx.Of(ch), if f.variant == Z8S180 then 4 else 1);
    var (overrun, rdr, rdr') := (g.regs[STAT0 + ch].b6, f.regs[RDR0 + ch], g.regs[RDR0 + ch]);
    if r.shift.None? || !r.clocked then q == r && overrun == f.regs[STAT0 + ch].b6 && rdr' == rdr
    else if n < r.cycles then
      q == r.(cycles := r.cycles - n) && overrun == f.regs[STAT0 + ch].b6 && rdr' == rdr
    else if |r.fifo| == capacity then q == Rx(None, 0, false, r.fifo) && overrun && rdr' == rdr
    else
      && q == Rx(None, 0, false, r.fifo + [r.shift.value]) && overrun == f.regs[STAT0 + ch].b6
      && rdr' == if r.fifo == [] then r.shift.value else rdr
  }

  /** The status of a channel: RDRF and TDRE tell what waits; time changes no enable and no other error. */
  ghost predicate StatusTells(f: Fields, g: Fields, ch: Ch) {
    var (before, after) := (f.regs[STAT0 + ch], g.regs[STAT0 + ch]);
    && after == before.(b7 := g.rx.Of(ch).fifo != [], b6 := after.b6, b1 := !g.tx.Of(ch).tdrFull)
  }

  /** A CSI/O transfer has ended when its cycles are over: a byte is out or in, its enable goes off and its flag on. */
  ghost predicate Transferred(f: Fields, n: nat, g: Fields) {
    var (cntr, trd) := (f.regs[CNTR], f.regs[TRD]);
    var (cntr', trd') := (g.regs[CNTR], g.regs[TRD]);
    if !f.csioClocked then
      && cntr' == cntr && trd' == trd && g.csioOutput == f.csioOutput && g.csioRxShift == f.csioRxShift
      && g.csioCycles == f.csioCycles && !g.csioClocked
    else if n < f.csioCycles then
      && cntr' == cntr && trd' == trd && g.csioOutput == f.csioOutput && g.csioRxShift == f.csioRxShift
      && g.csioCycles == f.csioCycles - n && g.csioClocked
    else
      && g.csioCycles == 0 && !g.csioClocked
      && if cntr.b4 then
           && g.csioOutput == f.csioOutput + [trd] && trd' == trd && g.csioRxShift == f.csioRxShift
           && cntr' == cntr.(b7 := true, b4 := false)
         else if cntr.b5 && f.csioRxShift.Some? then
           && g.csioOutput == f.csioOutput && trd' == f.csioRxShift.value && g.csioRxShift == None
           && cntr' == cntr.(b7 := true, b5 := false)
         else
           && g.csioOutput == f.csioOutput && trd' == trd && g.csioRxShift == f.csioRxShift && cntr' == cntr
  }

  /** IOSTOP holds the serial units; nothing holds the others. */
  ghost predicate Elapsed(f: Fields, n: nat, g: Fields) {
    && g.cycleCount == f.cycleCount + n
    && FrcRan(f, n, g) && TimersRan(f, n, g)
    && (if f.regs[ICR].b5 then
          && g.tx == f.tx && g.rx == f.rx && g.csioOutput == f.csioOutput && g.csioRxShift == f.csioRxShift
          && g.csioCycles == f.csioCycles && g.csioClocked == f.csioClocked
          && (forall i :: i in {STAT0, STAT1, RDR0, RDR0 + 1, CNTR, TRD} ==> g.regs[i] == f.regs[i])
        else
          && Sent(f, n, g, 0) && Heard(f, n, g, 0) && StatusTells(f, g, 0)
          && Sent(f, n, g, 1) && Heard(f, n, g, 1) && StatusTells(f, g, 1)
          && Transferred(f, n, g))
    && (g.irq.b0 <==> f.regs[TCR].b4 && g.regs[TCR].b6) && (g.irq.b1 <==> f.regs[TCR].b5 && g.regs[TCR].b7)
    && forall i :: 0 <= i < IO_REGISTER_COUNT && !Elapses(i) ==> g.regs[i] == f.regs[i]
  }

  // ------------------------------------------------------------- what the values of the devices say

  ghost function SnapshotOf(f: Fields): Dev {
    Dev(f.regs[FRC].Value(), f.frcRemainder, PrtAt(f.regs), f.prtRemainder, LineOf(f, 0), LineOf(f, 1),
        Csio(f.regs[CNTR], f.regs[TRD], f.csioRxShift, f.csioCycles, f.csioClocked, f.csioOutput), f.irq,
        f.cycleCount)
  }

  ghost function LineOf(f: Fields, ch: Ch): Line {
    Line(f.tx.Of(ch), f.rx.Of(ch), f.regs[STAT0 + ch], f.regs[RDR0 + ch])
  }

  /** The transmitter, case by case. */
  lemma TransmitIs(t: Tx, setup: LineSetup, n: nat)
    ensures Transmit(t, setup, n)
         == if t.shift.None? || !t.clocked then t
            else if n < t.cycles then t.(cycles := t.cycles - n)
            else if !t.tdrFull || !setup.sends then Tx(t.tdrFull, None, 0, false, t.output + [t.shift.value])
            else
              match setup.frame
              case None => Tx(false, Some(setup.tdr), 0, false, t.output + [t.shift.value])
              case Some(frame) =>
                if n < t.cycles + frame then
                  Tx(false, Some(setup.tdr), t.cycles + frame - n, true, t.output + [t.shift.value])
                else Tx(false, None, 0, false, t.output + [t.shift.value, setup.tdr])
  {
    if t.Running() && t.cycles <= n {
      var u := ShiftOut(t, setup);
      if u.Running() && u.cycles <= n - t.cycles {
        assert t.output + [t.shift.value] + [setup.tdr] == t.output + [t.shift.value, setup.tdr];
        var v := ShiftOut(u, setup);
        assert Transmit(v, setup, n - t.cycles - u.cycles) == v;
      }
    }
  }

  lemma ChannelRan(f: Fields, n: nat, g: Fields, ch: Ch)
    requires f.variant == g.variant && !f.regs[ICR].b5
    requires |f.rx.Of(ch).fifo| <= Capacity(f.variant)
    requires LineOf(g, ch) == AdvanceLine(LineOf(f, ch), LineSetupAt(f.variant, f.regs, ch), n)
    ensures Sent(f, n, g, ch) && Heard(f, n, g, ch) && StatusTells(f, g, ch)
  {
    hide FrameAt, FrameOf, Transmit;
    FrameIs(f.variant, f.regs, ch);
    TransmitIs(f.tx.Of(ch), LineSetupAt(f.variant, f.regs, ch), n);
  }

  lemma CsioRan(f: Fields, n: nat, g: Fields)
    requires SnapshotOf(g).csio == AdvanceCsio(SnapshotOf(f).csio, n)
    ensures Transferred(f, n, g)
  {
  }

  lemma TimersHaveRun(f: Fields, n: nat, g: Fields)
    requires PrtAt(g.regs) == Ticks(PrtAt(f.regs), (f.prtRemainder + n) / 20)
    requires g.prtRemainder == (f.prtRemainder + n) % 20
    ensures TimersRan(f, n, g)
  {
    hide Bits.Value, Ticks, After, Fired;
    var (p, t) := (PrtAt(f.regs), (f.prtRemainder + n) / 20);
    TicksMeetClosedForm(p, false, t);
    TicksMeetClosedForm(p, true, t);
    TicksKeepEnables(p, t);
  }

  /** Ticks change nothing of TCR but the flags. */
  lemma {:induction false} TicksKeepEnables(p: Prt, n: nat)
    ensures var q := Ticks(p, n); q.tcr == p.tcr.(b7 := q.tcr.b7, b6 := q.tcr.b6)
    decreases n
  {
    hide TickChannel;
    if n > 0 {
      TickKeepsEnables(p, false);
      TickKeepsEnables(TickChannel(p, false), true);
      TicksKeepEnables(Tick(p), n - 1);
    }
  }

  lemma TickKeepsEnables(p: Prt, second: bool)
    ensures var q := TickChannel(p, second); q.tcr == p.tcr.(b7 := q.tcr.b7, b6 := q.tcr.b6)
  {
  }

  ghost function WiresOf(f: Fields): Wiring {
    WiringAt(f.variant, f.regs, f.cts, f.dcdIrq)
  }

  /** A mask that agrees with the devices tells what they ask. */
  lemma MaskIs(f: Fields)
    requires f.irq == RequestsOf(f.regs[TCR], f.regs[DSTAT], f.regs[CNTR], LineOf(f, 0), LineOf(f, 1), WiresOf(f))
    ensures MaskTells(f)
  {
    hide LineSetupAt;
  }

  /** So the additive step of all devices is what the fields tell. */
  lemma ElapsedIs(f: Fields, n: nat, g: Fields)
    requires g.variant == f.variant && MaskTells(g)
    requires |f.rx.first.fifo| <= Capacity(f.variant) && |f.rx.second.fifo| <= Capacity(f.variant)
    requires SnapshotOf(g) == Finish(SnapshotOf(f), WiresOf(f), n)
    requires forall i :: 0 <= i < IO_REGISTER_COUNT && !Elapses(i) ==> g.regs[i] == f.regs[i]
    ensures Elapsed(f, n, g)
  {
    hide PrtAt, LineSetupAt, AdvanceLine, AdvanceCsio, Ticks, IrqAfter, Bits.Value, TimersRan, Sent, Heard;
    hide StatusTells, Transferred;
    if !f.regs[ICR].b5 {
      ChannelRan(f, n, g, 0);
      ChannelRan(f, n, g, 1);
      CsioRan(f, n, g);
    }
    TimersHaveRun(f, n, g);
    TimersKeepEnables(f, n, g);
  }

  lemma TimersKeepEnables(f: Fields, n: nat, g: Fields)
    requires TimersRan(f, n, g)
    ensures g.regs[TCR].b5 == f.regs[TCR].b5 && g.regs[TCR].b4 == f.regs[TCR].b4
  {
  }
}
