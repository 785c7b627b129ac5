/** What elapsed cycles do to all devices at once (finish_step in lib.rs), and that time is additive. */
module DeviceTime {
  import opened Basics
  import opened Registers8
  import opened Timers
  import opened SerialUnits

  /** Everything that elapsed time changes. `irq` is the mask of pending requests. */
  datatype Dev = Dev(frc: byte, frcRemainder: nat, prt: Prt, prtRemainder: nat, line0: Line,
                     line1: Line, csio: Csio, irq: Bits, cycleCount: nat)

  /** What decides how, and what time leaves alone. */
  datatype Wiring = Wiring(ioStop: bool, setup0: LineSetup, setup1: LineSetup,
                           rdrfEnabled0: bool, rdrfEnabled1: bool, hidesTdre0: bool, hidesTdre1: bool,
                           dcdIrq: bool)

  // ------------------------------------------------------------------------------- request bits

  /** `update_prt_interrupt_requests`. */
  function PrtRequests(irq: Bits, tcr: Bits): Bits {
    irq.(b0 := tcr.b6 && tcr.b4, b1 := tcr.b7 && tcr.b5)
  }

  /** `update_dma_interrupt_requests`. */
  function DmaRequests(irq: Bits, dstat: Bits): Bits {
    irq.(b2 := dstat.b2 && !dstat.b6, b3 := dstat.b3 && !dstat.b7)
  }

  /** `update_csio_interrupt_request`. */
  function CsioRequest(irq: Bits, cntr: Bits): Bits {
    irq.(b4 := cntr.b7 && cntr.b6)
  }

  /** The request of one ASCI channel. */
  predicate AsciRequest(stat: Bits, tdrFull: bool, rdrfEnabled: bool, hidesTdre: bool, dcdIrq: bool) {
    || (stat.b3 && (stat.b6 || stat.b5 || stat.b4 || (stat.b7 && rdrfEnabled) || dcdIrq))
    || (stat.b0 && !tdrFull && !hidesTdre)
  }

  /** `update_asci_interrupt_requests`. */
  function AsciRequests(irq: Bits, l0: Line, l1: Line, w: Wiring): Bits {
    irq.(b5 := AsciRequest(l0.stat, l0.tx.tdrFull, w.rdrfEnabled0, w.hidesTdre0, w.dcdIrq),
         b6 := AsciRequest(l1.stat, l1.tx.tdrFull, w.rdrfEnabled1, w.hidesTdre1, false))
  }

  // ------------------------------------------------------------------------------------- the step

  /** A transfer ends within these cycles, and the source updates the request. */
  predicate CsioEnds(c: Csio, cycles: nat) {
    c.clocked && c.cycles <= cycles && (c.cntr.b4 || !c.cntr.b5 || c.rxShift.Some?)
  }

  /** The requests after the devices have advanced; each family is recomputed when the source does so. */
  function IrqAfter(irq: Bits, w: Wiring, ticked: bool, tcr: Bits, l0: Line, l1: Line, csioEnded: bool,
                    cntr: Bits): Bits {
    var a := AsciRequests(if ticked then PrtRequests(irq, tcr) else irq, l0, l1, w);
    if csioEnded then CsioRequest(a, cntr) else a
  }

  function LineAfter(l: Line, setup: LineSetup, w: Wiring, cycles: nat): Line {
    if w.ioStop then l else AdvanceLine(l, setup, cycles)
  }

  function CsioAfter(c: Csio, w: Wiring, cycles: nat): Csio {
    if w.ioStop then c else AdvanceCsio(c, cycles)
  }

  /** The free-running counter counts down and wraps. */
  function FrcAfter(frc: byte, ticks: nat): byte {
    (frc - ticks) % 256
  }

  /** `cycles` cycles that bring `frcTicks` ticks of the free-running counter and `prtTicks` of the timers,
      leaving the two remainders given. */
  function Step(d: Dev, w: Wiring, cycles: nat, frcTicks: nat, frcRest: nat, prtTicks: nat, prtRest: nat):
    Dev
  {
    var prt := Ticks(d.prt, prtTicks);
    var l0, l1 := LineAfter(d.line0, w.setup0, w, cycles), LineAfter(d.line1, w.setup1, w, cycles);
    var c := CsioAfter(d.csio, w, cycles);
    Dev(FrcAfter(d.frc, frcTicks), frcRest, prt, prtRest, l0, l1, c,
        IrqAfter(d.irq, w, prtTicks != 0, prt.tcr, l0, l1, !w.ioStop && CsioEnds(d.csio, cycles), c.cntr),
        d.cycleCount + cycles)
  }

  /** `finish_step`: the free-running counter ticks every ten cycles, the timers every twenty. */
  function Finish(d: Dev, w: Wiring, cycles: nat): Dev {
    var f, p := d.frcRemainder + cycles, d.prtRemainder + cycles;
    Step(d, w, cycles, f / 10, f % 10, p / 20, p % 20)
  }

  // ------------------------------------------------------------------------------- time is additive

  lemma FrcAdds(f: byte, a: nat, b: nat)
    ensures FrcAfter(FrcAfter(f, a), b) == FrcAfter(f, a + b)
  {
  }

  /** The control register changes only when a transfer ends. */
  lemma CsioStands(c: Csio, cycles: nat)
    ensures !CsioEnds(c, cycles) ==> AdvanceCsio(c, cycles).cntr == c.cntr
  {
  }

  /** A transfer ends once. */
  lemma CsioEndsOnce(c: Csio, a: nat, b: nat)
    ensures CsioEnds(c, a + b) <==> CsioEnds(c, a) || CsioEnds(AdvanceCsio(c, a), b)
    ensures !CsioEnds(AdvanceCsio(c, a), b)
            ==> AdvanceCsio(AdvanceCsio(c, a), b).cntr == AdvanceCsio(c, a).cntr
  {
  }

  lemma UnitsAdd(l0: Line, l1: Line, c: Csio, w: Wiring, a: nat, b: nat)
    ensures LineAfter(LineAfter(l0, w.setup0, w, a), w.setup0, w, b) == LineAfter(l0, w.setup0, w, a + b)
    ensures LineAfter(LineAfter(l1, w.setup1, w, a), w.setup1, w, b) == LineAfter(l1, w.setup1, w, a + b)
    ensures CsioAfter(CsioAfter(c, w, a), w, b) == CsioAfter(c, w, a + b)
  {
    LineAdds(l0, w.setup0, a, b);
    LineAdds(l1, w.setup1, a, b);
    CsioAdds(c, a, b);
  }

  /** The requests add up: recomputing a family twice is recomputing it once. */
  lemma RequestsAdd(irq: Bits, t: bool, tcr: Bits, t': bool, tcr': Bits, l0: Line, l1: Line, l0': Line,
                    l1': Line, w: Wiring, c: bool, cntr: Bits, c': bool, cntr': Bits)
    requires !t' ==> tcr' == tcr
    requires !c' ==> cntr' == cntr
    ensures IrqAfter(IrqAfter(irq, w, t, tcr, l0, l1, c, cntr), w, t', tcr', l0', l1', c', cntr')
            == IrqAfter(irq, w, t || t', tcr', l0', l1', c || c', cntr')
  {
  }

  lemma StepAdds(d: Dev, w: Wiring, a: nat, f: nat, fr: nat, p: nat, pr: nat, b: nat, f': nat, fr': nat,
                 p': nat, pr': nat)
    ensures Step(Step(d, w, a, f, fr, p, pr), w, b, f', fr', p', pr')
            == Step(d, w, a + b, f + f', fr', p + p', pr')
  {
    FrcAdds(d.frc, f, f');
    TicksAdd(d.prt, p, p');
    UnitsAdd(d.line0, d.line1, d.csio, w, a, b);
    CsioEndsOnce(d.csio, a, b);
    var m := Step(d, w, a, f, fr, p, pr);
    var z := Step(m, w, b, f', fr', p', pr');
    RequestsAdd(d.irq, p != 0, m.prt.tcr, p' != 0, z.prt.tcr, m.line0, m.line1, z.line0, z.line1, w,
                !w.ioStop && CsioEnds(d.csio, a), m.csio.cntr, !w.ioStop && CsioEnds(m.csio, b),
                z.csio.cntr);
  }

  /** The step that charges `cycles`, with quotients and remainders given. */
  lemma FinishIs(d: Dev, w: Wiring, cycles: nat, f: nat, fr: nat, p: nat, pr: nat)
    requires d.frcRemainder + cycles == 10 * f + fr && fr < 10
    requires d.prtRemainder + cycles == 20 * p + pr && pr < 20
    ensures Finish(d, w, cycles) == Step(d, w, cycles, f, fr, p, pr)
  {
    assert (10 * f + fr) / 10 == f && (10 * f + fr) % 10 == fr;
    assert (20 * p + pr) / 20 == p && (20 * p + pr) % 20 == pr;
  }

  lemma FinishAddsBy(d: Dev, w: Wiring, a: nat, f: nat, fr: nat, p: nat, pr: nat, b: nat, f': nat,
                     fr': nat, p': nat, pr': nat)
    requires d.frcRemainder + a == 10 * f + fr && fr < 10
    requires d.prtRemainder + a == 20 * p + pr && pr < 20
    requires fr + b == 10 * f' + fr' && fr' < 10
    requires pr + b == 20 * p' + pr' && pr' < 20
    ensures Finish(Finish(d, w, a), w, b) == Finish(d, w, a + b)
  {
    FinishIs(d, w, a, f, fr, p, pr);
    FinishIs(Step(d, w, a, f, fr, p, pr), w, b, f', fr', p', pr');
    FinishIs(d, w, a + b, f + f', fr', p + p', pr');
    StepAdds(d, w, a, f, fr, p, pr, b, f', fr', p', pr');
  }

  /** Cycles may be charged in one go or in parts: every device, every queue, every request bit and the
      clock end up the same. */
  lemma FinishAdds(d: Dev, w: Wiring, a: nat, b: nat)
    ensures Finish(Finish(d, w, a), w, b) == Finish(d, w, a + b)
  {
    var f, p := d.frcRemainder + a, d.prtRemainder + a;
    FinishAddsBy(d, w, a, f / 10, f % 10, p / 20, p % 20, b, (f % 10 + b) / 10, (f % 10 + b) % 10,
                 (p % 20 + b) / 20, (p % 20 + b) % 20);
  }
}
