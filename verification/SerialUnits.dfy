/**
 The serial units as functions of elapsed time: one ASCI channel (peripherals/asci.rs) and the CSI/O
 (peripherals/csio.rs).
 */
module SerialUnits {
  import opened Basics
  import opened Registers8

  datatype Variant = Z80180 | Z8S180

  // ----------------------------------------------------------------------------------- one channel

  /** The transmitter of an ASCI channel. */
  datatype Tx = Tx(tdrFull: bool, shift: Option<Bits>, cycles: nat, clocked: bool, output: seq<Bits>)
  {
    predicate Running() {
      shift.Some? && clocked
    }

    /** The bytes on their way out, oldest first: output, shifter, TDR. */
    function Stream(tdr: Bits): seq<Bits> {
      output + (if shift.Some? then [shift.value] else []) + (if tdrFull then [tdr] else [])
    }
  }

  /** The receiver of an ASCI channel. */
  datatype Rx = Rx(shift: Option<Bits>, cycles: nat, clocked: bool, fifo: seq<Bits>)
  {
    /** The shifter's byte is complete after so many cycles. */
    predicate Completes(elapsed: nat) {
      shift.Some? && clocked && cycles <= elapsed
    }

    /** The bytes on their way in, oldest first: FIFO, shifter. */
    function Stream(): seq<Bits> {
      fifo + (if shift.Some? then [shift.value] else [])
    }
  }

  /** A channel with the two registers that time changes. */
  datatype Line = Line(tx: Tx, rx: Rx, stat: Bits, rdr: Bits)

  /** What the other registers say about a channel; time leaves it alone. */
  datatype LineSetup = LineSetup(frame: Option<nat>, sends: bool, tdr: Bits, capacity: nat)

  /** `1 << (r & 7)`, below seven. */
  function Divisor(r: Bits): (d: nat)
    ensures d > 0
  {
    (if r.b0 then 2 else 1) * (if r.b1 then 4 else 1) * (if r.b2 then 16 else 1)
  }

  /** `asci_frame_cycles`. */
  function FrameCycles(variant: Variant, cntla: Bits, cntlb: Bits, asext: Bits, timeConstant: nat):
    (r: Option<nat>)
    ensures r.Some? ==> r.value > 0
    ensures r.None? <==> !(variant == Z8S180 && asext.b3) && cntlb.b0 && cntlb.b1 && cntlb.b2
  {
    var clockMode := if variant == Z8S180 && asext.b4 then 1 else if !cntlb.b3 then 16 else 64;
    var bits := 1 + (if cntla.b2 then 8 else 7) + (if cntla.b1 || cntlb.b6 then 1 else 0)
                + (if cntla.b0 then 2 else 1);
    if variant == Z8S180 && asext.b3 then Some(bits * (2 * (timeConstant + 2) * clockMode))
    else if cntlb.b0 && cntlb.b1 && cntlb.b2 then None
    else
      var prescale := if !cntlb.b5 then 10 else 30;
      Some(bits * (prescale * Divisor(cntlb) * clockMode))
  }

  /** `start_asci_transmit`: a full TDR moves into an idle shifter when the transmitter is on. */
  function StartTransmit(t: Tx, setup: LineSetup): Tx {
    if t.shift.Some? || !t.tdrFull || !setup.sends then t
    else
      match setup.frame
      case Some(cycles) => t.(shift := Some(setup.tdr), tdrFull := false, cycles := cycles, clocked := true)
      case None => t.(shift := Some(setup.tdr), tdrFull := false, cycles := 0, clocked := false)
  }

  /** The byte in the shifter has gone out. */
  function ShiftOut(t: Tx, setup: LineSetup): Tx
    requires t.Running()
  {
    StartTransmit(t.(output := t.output + [t.shift.value], shift := None, cycles := 0,
                     clocked := false), setup)
  }

  function Queued(t: Tx): nat {
    (if t.shift.Some? then 1 else 0) + (if t.tdrFull then 2 else 0)
  }

  /** The transmitter over `elapsed` cycles. */
  function Transmit(t: Tx, setup: LineSetup, elapsed: nat): Tx
    decreases Queued(t)
  {
    if !t.Running() then t
    else if t.cycles > elapsed then t.(cycles := t.cycles - elapsed)
    else Transmit(ShiftOut(t, setup), setup, elapsed - t.cycles)
  }

  /** The receiver over `elapsed` cycles: a complete byte enters the FIFO unless that is full. */
  function Receive(r: Rx, capacity: nat, elapsed: nat): Rx {
    if !(r.shift.Some? && r.clocked) then r
    else if r.cycles > elapsed then r.(cycles := r.cycles - elapsed)
    else
      Rx(None, 0, false, if |r.fifo| == capacity then r.fifo else r.fifo + [r.shift.value])
  }

  /** A byte completes while the FIFO is full: it is dropped and OVRN is set. */
  predicate Overruns(r: Rx, capacity: nat, elapsed: nat) {
    r.Completes(elapsed) && |r.fifo| == capacity
  }

  /** A byte completes while the FIFO is empty: it shows in RDR at once. */
  predicate Shows(r: Rx, capacity: nat, elapsed: nat) {
    r.Completes(elapsed) && |r.fifo| != capacity && r.fifo == []
  }

  /** `sync_asci_status`: RDRF and TDRE. */
  function SyncStat(stat: Bits, tx: Tx, rx: Rx): Bits {
    stat.(b7 := rx.fifo != [], b1 := !tx.tdrFull)
  }

  /** One channel's part of `advance_asci`, outside IOSTOP. */
  function AdvanceLine(l: Line, setup: LineSetup, elapsed: nat): Line {
    var tx := Transmit(l.tx, setup, elapsed);
    var rx := Receive(l.rx, setup.capacity, elapsed);
    var stat := if Overruns(l.rx, setup.capacity, elapsed) then l.stat.(b6 := true) else l.stat;
    Line(tx, rx, SyncStat(stat, tx, rx),
         if Shows(l.rx, setup.capacity, elapsed) then l.rx.shift.value else l.rdr)
  }

  /** Time leaves alone the enables, the data carrier bit and the error bits other than OVRN. */
  lemma StatusStays(l: Line, setup: LineSetup, elapsed: nat)
    ensures var stat := AdvanceLine(l, setup, elapsed).stat;
            && stat.b5 == l.stat.b5 && stat.b4 == l.stat.b4 && stat.b3 == l.stat.b3
            && stat.b2 == l.stat.b2 && stat.b0 == l.stat.b0
  {
  }

  // ------------------------------------------------------------------------------- time is additive

  lemma {:induction false} TransmitAdds(t: Tx, setup: LineSetup, a: nat, b: nat)
    ensures Transmit(Transmit(t, setup, a), setup, b) == Transmit(t, setup, a + b)
    decreases Queued(t)
  {
    if t.Running() && t.cycles <= a {
      TransmitAdds(ShiftOut(t, setup), setup, a - t.cycles, b);
    }
  }

  lemma ReceiveAdds(r: Rx, capacity: nat, a: nat, b: nat)
    ensures var m := Receive(r, capacity, a);
            && Receive(m, capacity, b) == Receive(r, capacity, a + b)
            && (Overruns(r, capacity, a + b) <==> Overruns(r, capacity, a) || Overruns(m, capacity, b))
            && (Shows(r, capacity, a + b) <==> Shows(r, capacity, a) || Shows(m, capacity, b))
            && (Shows(m, capacity, b) ==> !Shows(r, capacity, a) && m.shift == r.shift)
  {
    if r.shift.Some? && r.clocked && r.cycles > a {
      assert Receive(r, capacity, a) == r.(cycles := r.cycles - a);
    }
  }

  /** Advancing a channel by `a` and then by `b` is advancing it by `a + b`. */
  lemma LineAdds(l: Line, setup: LineSetup, a: nat, b: nat)
    ensures AdvanceLine(AdvanceLine(l, setup, a), setup, b) == AdvanceLine(l, setup, a + b)
  {
    TransmitAdds(l.tx, setup, a, b);
    ReceiveAdds(l.rx, setup.capacity, a, b);
  }

  // -------------------------------------------------------------------------- nothing is lost in time

  /** Time loses, adds and reorders no outgoing byte. */
  lemma {:induction false} TransmitKeepsStream(t: Tx, setup: LineSetup, elapsed: nat)
    ensures Transmit(t, setup, elapsed).Stream(setup.tdr) == t.Stream(setup.tdr)
    decreases Queued(t)
  {
    if t.Running() && t.cycles <= elapsed {
      TransmitKeepsStream(ShiftOut(t, setup), setup, elapsed - t.cycles);
    }
  }

  /** Time loses no incoming byte but one that completes while the FIFO is full, and then OVRN is set. */
  lemma ReceiveKeepsStream(l: Line, setup: LineSetup, elapsed: nat)
    ensures var m := AdvanceLine(l, setup, elapsed);
            if Overruns(l.rx, setup.capacity, elapsed)
            then m.rx.Stream() == l.rx.fifo && m.stat.b6
            else m.rx.Stream() == l.rx.Stream() && m.stat.b6 == l.stat.b6
  {
    if l.rx.Completes(elapsed) {
      assert Receive(l.rx, setup.capacity, elapsed).shift == None;
    }
  }

  // ------------------------------------------------------------------------------------------ CSI/O

  /** The CSI/O with its two registers. */
  datatype Csio = Csio(cntr: Bits, trd: Bits, rxShift: Option<Bits>, cycles: nat, clocked: bool,
                       txOutput: seq<Bits>)

  /** `csio_transfer_cycles`. */
  function TransferCycles(cntr: Bits): (r: Option<nat>)
    ensures r.Some? ==> r.value > 0
  {
    if cntr.b0 && cntr.b1 && cntr.b2 then None else Some(8 * (20 * Divisor(cntr)))
  }

  /** `advance_csio`, outside IOSTOP. */
  function AdvanceCsio(c: Csio, elapsed: nat): Csio {
    if !c.clocked then c
    else if c.cycles > elapsed then c.(cycles := c.cycles - elapsed)
    else
      var idle := c.(cycles := 0, clocked := false);
      if c.cntr.b4 then
        idle.(txOutput := c.txOutput + [c.trd], cntr := c.cntr.(b4 := false, b7 := true))
      else if c.cntr.b5 && c.rxShift.Some? then
        idle.(rxShift := None, trd := c.rxShift.value, cntr := c.cntr.(b5 := false, b7 := true))
      else idle
  }

  lemma CsioAdds(c: Csio, a: nat, b: nat)
    ensures AdvanceCsio(AdvanceCsio(c, a), b) == AdvanceCsio(c, a + b)
  {
  }
}
