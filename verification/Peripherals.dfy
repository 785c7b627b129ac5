/**
 The on-chip devices of the machine: the internal register file and the peripherals behind it
 (access.rs, the peripherals directory, and `finish_step` and `reset` in lib.rs).

 Two values are kept that summarise the registers, the mask of pending requests and the physical bases
 of the sixteen logical pages; `Valid` says that neither is ever stale. A ledger for each direction of
 each serial channel says what became of every byte.
 */
module Peripherals {
  import opened Basics
  import opened DeviceEffects
  import opened DeviceState
  import opened DeviceTime
  import opened GuestEffects
  import opened IoRegisters
  import opened Ledgers
  import opened Registers8
  import opened SerialUnits
  import opened Timers

  class Devices {
    const variant: Variant
    const mmuPages: array<nat>
    var regs: RegFile
    var irqPending: Bits
    var cycleCount: nat
    var frcRemainder: nat
    var prtRemainder: nat
    var highLatch: Two<Bits>
    var highLatchValid: Two<bool>
    var clearArmed: Two<bool>
    var cts: Two<bool>
    var dcd: bool
    var dcdLatched: bool
    var dcdIrqPending: bool
    var nmiLevel: bool
    var nmiPending: bool
    var tx: Two<Tx>
    var rx: Two<Rx>
    var csioRxShift: Option<Bits>
    var csioCycles: nat
    var csioClocked: bool
    var csioOutput: seq<Bits>
    ghost var outgoing: Two<Ledger>
    ghost var incoming: Two<Ledger>
    ghost var rdrOverwritten: Two<bool>

    // ---------------------------------------------------------------------- the devices as values

    ghost function Prt(): Prt
      reads `regs
    {
      PrtAt(regs)
    }

    ghost function Channels(): Two<ChannelView>
      reads `regs, `tx, `rx, `incoming, `rdrOverwritten
    {
      ChannelsAt(variant, regs, tx, rx, incoming, rdrOverwritten)
    }

    ghost function Csio(): Csio
      reads `regs, `csioRxShift, `csioCycles, `csioClocked, `csioOutput
    {
      SerialUnits.Csio(regs[CNTR], regs[TRD], csioRxShift, csioCycles, csioClocked, csioOutput)
    }

    ghost function Wires(): Wiring
      reads `regs, `cts, `dcdIrqPending
    {
      WiringAt(variant, regs, cts, dcdIrqPending)
    }

    ghost function Snapshot(): Dev
      reads this
    {
      Dev(regs[FRC].Value(), frcRemainder, Prt(), prtRemainder, Channels().first.line,
          Channels().second.line, Csio(), irqPending, cycleCount)
    }

    ghost function Here(): Fields
      reads this
    {
      Fields(variant, regs, irqPending, cycleCount, frcRemainder, prtRemainder, cts, dcd, dcdLatched, dcdIrqPending,
             tx, rx, csioRxShift, csioCycles, csioClocked, csioOutput, highLatch, highLatchValid, clearArmed)
    }

    // ------------------------------------------------------------------------------- what is kept

    ghost function Now(): State
      reads `regs, `tx, `rx, `incoming, `outgoing, `rdrOverwritten, `cts, `dcdIrqPending, `irqPending
    {
      State(regs[TCR], regs[DSTAT], regs[CNTR], Channels(), Wires(), irqPending, outgoing)
    }

    ghost predicate MapIsFresh()
      reads `regs, mmuPages
    {
      && mmuPages.Length == 16
      && forall p :: 0 <= p < 16 ==> mmuPages[p] == PageBase(regs[CBR], regs[BBR], regs[CBAR], p)
    }

    ghost predicate Valid()
      reads this, mmuPages
    {
      MapIsFresh() && Now().Ok()
    }

    /** The invariant says, by registers and pins, which request stands in which bit. */
    lemma MaskIsRight()
      requires Valid()
      ensures MaskTells(Here())
    {
      hide ChannelView.Good, MaskTells, RequestsOf;
      MaskIs(Here());
    }

    /** And it says which physical page each logical page is. */
    lemma PagesAreRight(p: nat)
      requires Valid() && p < 16
      ensures var (cbar, bank) := (regs[CBAR].Value(), if p < regs[CBAR].Value() % 16 then 0
                                                       else if p < regs[CBAR].Value() / 16 then regs[BBR].Value()
                                                       else regs[CBR].Value());
              mmuPages[p] == 4096 * ((bank + p) % 256)
    {
      hide State.Ok, Bits.Value;
      ValueParts(regs[CBAR]);
    }

    // ------------------------------------------------------------------------------ the timers

    method UpdatePrtRequests()
      modifies `irqPending
      ensures irqPending == PrtRequests(old(irqPending), regs[TCR])
    {
      irqPending := irqPending.(b0 := regs[TCR].b6 && regs[TCR].b4, b1 := regs[TCR].b7 && regs[TCR].b5);
    }

    /** Stores a 16-bit value, low byte first. */
    method SetWord(low: nat, high: nat, value: nat)
      requires low < high < IO_REGISTER_COUNT && value < 65536
      modifies `regs
      ensures regs[low].Value() == value % 256 && regs[high].Value() == value / 256
      ensures forall i :: 0 <= i < IO_REGISTER_COUNT && i != low && i != high ==> regs[i] == old(regs)[i]
    {
      hide Bits.Value, Byte;
      ByteValue(value % 256);
      ByteValue(value / 256);
      regs := regs[low := Byte(value % 256)];
      regs := regs[high := Byte(value / 256)];
    }

    /** One tick of one enabled channel: the body of the inner loop of `advance_prt`. */
    method TickTimer(channel: Ch)
      modifies `regs
      ensures Prt() == TickChannel(old(Prt()), channel == 1)
      ensures forall i :: 0 <= i < IO_REGISTER_COUNT && !IsTimer(i) ==> regs[i] == old(regs)[i]
    {
      hide Bits.Value, Byte, TickChannel;
      ghost var p, second := Prt(), channel == 1;
      if !(if channel == 0 then regs[TCR].b0 else regs[TCR].b1) {
        TickChannelIs(p, p, second);
        return;
      }
      var tmdrLow, tmdrHigh, rldrLow, rldrHigh :=
        if channel == 0 then TMDR0L else TMDR1L, if channel == 0 then TMDR0H else TMDR1H,
        if channel == 0 then RLDR0L else RLDR1L, if channel == 0 then RLDR0H else RLDR1H;
      var count: nat := regs[tmdrLow].Value() + 256 * regs[tmdrHigh].Value();
      var next: nat;
      if count == 0 {
        next := regs[rldrLow].Value() + 256 * regs[rldrHigh].Value();
      } else {
        next := count - 1;
        if next == 0 {
          regs := regs[TCR := if channel == 0 then regs[TCR].(b6 := true) else regs[TCR].(b7 := true)];
        }
      }
      assert count == p.Of(second).Count();
      SetWord(tmdrLow, tmdrHigh, next);
      TickChannelIs(p, Prt(), second);
    }

    /** `advance_prt`. */
    method RunTimers(cycles: nat) returns (ghost elapsed: nat)
      modifies `irqPending, `prtRemainder, `regs
      ensures old(prtRemainder) + cycles == 20 * elapsed + prtRemainder && prtRemainder < 20
      ensures Prt() == Ticks(old(Prt()), elapsed)
      ensures irqPending == if elapsed != 0 then PrtRequests(old(irqPending), regs[TCR]) else old(irqPending)
      ensures forall i :: 0 <= i < IO_REGISTER_COUNT && !IsTimer(i) ==> regs[i] == old(regs)[i]
    {
      hide TickChannel, PrtAt;
      var totalCycles := prtRemainder + cycles;
      var ticks := totalCycles / 20;
      elapsed := ticks;
      prtRemainder := totalCycles % 20;
      for tick := 0 to ticks
        modifies `regs
        invariant Ticks(Prt(), ticks - tick) == Ticks(old(Prt()), ticks)
        invariant forall i :: 0 <= i < IO_REGISTER_COUNT && !IsTimer(i) ==> regs[i] == old(regs)[i]
      {
        ghost var p := Prt();
        for channel := 0 to 2
          modifies `regs
          invariant Prt() == if channel == 0 then p
                             else if channel == 1 then TickChannel(p, false)
                             else Tick(p)
          invariant forall i :: 0 <= i < IO_REGISTER_COUNT && !IsTimer(i) ==> regs[i] == old(regs)[i]
        {
          TickTimer(channel);
        }
      }
      if ticks != 0 {
        UpdatePrtRequests();
      }
    }

    /** The timers advance, and nothing else does. */
    method AdvancePrt(cycles: nat) returns (ghost elapsed: nat)
      modifies `irqPending, `prtRemainder, `regs
      ensures old(prtRemainder) + cycles == 20 * elapsed + prtRemainder && prtRemainder < 20
      ensures Prt() == Ticks(old(Prt()), elapsed)
      ensures irqPending == if elapsed != 0 then PrtRequests(old(irqPending), regs[TCR]) else old(irqPending)
      ensures Channels() == old(Channels()) && Csio() == old(Csio()) && Wires() == old(Wires())
      ensures forall i :: 0 <= i < IO_REGISTER_COUNT && !IsTimer(i) ==> regs[i] == old(regs)[i]
    {
      hide LineSetupAt, WiringAt, PrtAt;
      elapsed := RunTimers(cycles);
      TimeKeepsWiring(variant, old(regs), regs, cts, dcdIrqPending);
    }

    // ------------------------------------------------------------------------------ the ASCI

    predicate DcdAutoEnabled()
      reads `regs
    {
      variant != Z8S180 || !regs[ASEXT0].b6
    }

    predicate ReceiverEnabled(ch: Ch)
      reads `regs, `dcdLatched
    {
      !regs[ICR].b5 && regs[CNTLA0 + ch].b6 && !(ch == 0 && DcdAutoEnabled() && dcdLatched)
    }

    function AsciStatusValue(ch: Ch): Bits
      reads `regs, `tx, `cts, `dcdLatched
    {
      regs[STAT0 + ch].(b2 := if ch == 0 then dcdLatched else regs[STAT1].b2,
                        b1 := !tx.Of(ch).tdrFull && !CtsHidesTdre(variant, regs, cts, ch))
    }

    function AsciCntlbValue(ch: Ch): Bits
      reads `regs, `cts
    {
      regs[CNTLB0 + ch].(b5 := (ch == 0 || regs[STAT1].b2) && cts.Of(ch))
    }

    /** What the views show of the two channels. */
    lemma Views(ch: Ch)
      ensures Channels().Of(ch)
              == ChannelView(Line(tx.Of(ch), rx.Of(ch), regs[STAT0 + ch], regs[RDR0 + ch]),
                             LineSetupAt(variant, regs, ch), incoming.Of(ch), rdrOverwritten.Of(ch))
      ensures Channels().Of(1 - ch)
              == ChannelView(Line(tx.Of(1 - ch), rx.Of(1 - ch), regs[STAT1 - ch], regs[RDR0 + 1 - ch]),
                             LineSetupAt(variant, regs, 1 - ch), incoming.Of(1 - ch),
                             rdrOverwritten.Of(1 - ch))
    {
      hide ChannelsAt, LineSetupAt;
      ViewIs(variant, regs, tx, rx, incoming, rdrOverwritten, ch);
      ViewIs(variant, regs, tx, rx, incoming, rdrOverwritten, 1 - ch);
    }

    lemma TxIs(ch: Ch)
      ensures Channels().Of(ch).line.tx == tx.Of(ch) && Channels().Of(ch).line.rx == rx.Of(ch)
      ensures Channels().Of(ch).incoming == incoming.Of(ch)
      ensures Channels().Of(ch).setup == LineSetupAt(variant, regs, ch)
    {
      hide LineSetupAt;
    }

    method SyncAsciStatus(ch: Ch)
      modifies `regs
      ensures regs[STAT0 + ch] == SyncStat(old(regs)[STAT0 + ch], tx.Of(ch), rx.Of(ch))
      ensures forall i :: 0 <= i < IO_REGISTER_COUNT && i != STAT0 + ch ==> regs[i] == old(regs)[i]
      ensures Channels().Of(ch) == old(Channels()).Of(ch).Synced()
      ensures Channels().Of(1 - ch) == old(Channels()).Of(1 - ch)
    {
      hide LineSetupAt, ChannelsAt, Two.Of;
      Views(ch);
      var index := STAT0 + ch;
      regs := regs[index := regs[index].(b7 := rx.Of(ch).fifo != [], b1 := !tx.Of(ch).tdrFull)];
      Views(ch);
      SameSetups(variant, old(regs), regs);
    }

    /** What one channel asks for: the body of the loop of `update_asci_interrupt_requests`. */
    method AsciRequestOf(ch: Ch) returns (pending: bool)
      ensures pending == Asking(Channels().Of(ch).line, Wires(), ch)
    {
      hide LineSetupAt;
      var status := regs[STAT0 + ch];
      var receiveCause := status.b6 || status.b5 || status.b4;
      receiveCause := receiveCause || (status.b7 && RdrfEnabled(variant, regs, ch));
      receiveCause := receiveCause || (ch == 0 && dcdIrqPending);
      var receiveRequest := status.b3 && receiveCause;
      var transmitRequest := status.b0 && AsciStatusValue(ch).b1;
      pending := receiveRequest || transmitRequest;
    }

    method UpdateAsciRequests()
      modifies `irqPending
      ensures irqPending
              == AsciRequests(old(irqPending), Channels().first.line, Channels().second.line, Wires())
    {
      hide Asking, ChannelsAt, WiringAt;
      irqPending := irqPending.(b5 := false, b6 := false);
      for ch := 0 to 2
        invariant irqPending == old(irqPending).(b5 := ch > 0 && Asking(Channels().first.line, Wires(), 0),
                                                 b6 := ch > 1 && Asking(Channels().second.line, Wires(), 1))
      {
        var pending := AsciRequestOf(ch);
        irqPending := if ch == 0 then irqPending.(b5 := pending) else irqPending.(b6 := pending);
      }
      AskingIs(old(irqPending), Channels().first.line, Channels().second.line, Wires());
    }

    method StartAsciTransmit(ch: Ch)
      modifies `tx
      ensures tx == old(tx).With(ch, StartTransmit(old(tx).Of(ch), LineSetupAt(variant, regs, ch)))
      ensures Channels().Of(ch) == old(Channels()).Of(ch).Started()
      ensures Channels().Of(1 - ch) == old(Channels()).Of(1 - ch)
    {
      hide FrameAt;
      if tx.Of(ch).shift.Some? || !tx.Of(ch).tdrFull || regs[ICR].b5 || !regs[CNTLA0 + ch].b5 {
        return;
      }
      var t := tx.Of(ch).(shift := Some(regs[TDR0 + ch]), tdrFull := false);
      match FrameAt(variant, regs, ch) {
        case Some(cycles) => tx := tx.With(ch, t.(cycles := cycles, clocked := true));
        case None => tx := tx.With(ch, t.(cycles := 0, clocked := false));
      }
    }

    /** Drops the byte in the receive shifter, and with `clearStatus` the FIFO too. */
    method AbortAsciReceive(ch: Ch, clearStatus: bool)
      modifies `rx, `incoming, `regs
      ensures Channels().Of(ch) == old(Channels()).Of(ch).Aborted(clearStatus)
      ensures Channels().Of(1 - ch) == old(Channels()).Of(1 - ch)
      ensures forall i :: 0 <= i < IO_REGISTER_COUNT && i != STAT0 + ch ==> regs[i] == old(regs)[i]
    {
      hide LineSetupAt, ChannelsAt, SyncStat, Two.Of;
      Views(ch);
      incoming := incoming.With(ch, ReceptionDropped(incoming.Of(ch), rx.Of(ch), clearStatus));
      rx := rx.With(ch, Rx(None, 0, false, rx.Of(ch).fifo));
      if clearStatus {
        rx := rx.With(ch, rx.Of(ch).(fifo := []));
        var status := regs[STAT0 + ch].(b7 := false, b6 := false, b5 := false, b4 := false);
        regs := regs[STAT0 + ch := status];
      }
      Views(ch);
      SameSetups(variant, old(regs), regs);
      SyncAsciStatus(ch);
    }

    /** The transmitter's part of `advance_asci`. */
    method AdvanceTransmitter(ch: Ch, cycles: nat)
      modifies `tx
      ensures tx == old(tx).With(ch, Transmit(old(tx).Of(ch), LineSetupAt(variant, regs, ch), cycles))
    {
      hide LineSetupAt, ChannelsAt;
      ghost var setup := LineSetupAt(variant, regs, ch);
      var remainingCycles: nat := cycles;
      while tx.Of(ch).shift.Some? && tx.Of(ch).clocked
        invariant tx == old(tx).With(ch, tx.Of(ch))
        invariant Transmit(tx.Of(ch), setup, remainingCycles) == Transmit(old(tx).Of(ch), setup, cycles)
        decreases Queued(tx.Of(ch))
      {
        if tx.Of(ch).cycles > remainingCycles {
          tx := tx.With(ch, tx.Of(ch).(cycles := tx.Of(ch).cycles - remainingCycles));
          break;
        }
        remainingCycles := remainingCycles - tx.Of(ch).cycles;
        var sent := tx.Of(ch).shift.value;
        tx := tx.With(ch, tx.Of(ch).(output := tx.Of(ch).output + [sent], shift := None, cycles := 0,
                                     clocked := false));
        StartAsciTransmit(ch);
      }
    }

    /** The receiver's part of `advance_asci`. */
    method AdvanceReceiver(ch: Ch, cycles: nat)
      modifies `rx, `incoming, `rdrOverwritten, `regs
      ensures var r, c := old(rx).Of(ch), Capacity(variant);
              && rx == old(rx).With(ch, Receive(r, c, cycles))
              && regs[STAT0 + ch] == (if Overruns(r, c, cycles) then old(regs)[STAT0 + ch].(b6 := true)
                                      else old(regs)[STAT0 + ch])
              && regs[RDR0 + ch] == (if Shows(r, c, cycles) then r.shift.value else old(regs)[RDR0 + ch])
              && incoming == old(incoming).With(ch, Received(old(incoming).Of(ch), r, c, cycles))
              && rdrOverwritten == old(rdrOverwritten).With(ch, old(rdrOverwritten).Of(ch)
                                                                && !Shows(r, c, cycles))
      ensures forall i :: 0 <= i < IO_REGISTER_COUNT && i != STAT0 + ch && i != RDR0 + ch ==>
                regs[i] == old(regs)[i]
    {
      if rx.Of(ch).shift.Some? && rx.Of(ch).clocked {
        if rx.Of(ch).cycles > cycles {
          rx := rx.With(ch, rx.Of(ch).(cycles := rx.Of(ch).cycles - cycles));
        } else {
          var heard := rx.Of(ch).shift.value;
          rx := rx.With(ch, rx.Of(ch).(shift := None, cycles := 0, clocked := false));
          if |rx.Of(ch).fifo| == Capacity(variant) {
            regs := regs[STAT0 + ch := regs[STAT0 + ch].(b6 := true)];
            incoming := incoming.With(ch, incoming.Of(ch).Lose(|rx.Of(ch).fifo|, 1));
          } else {
            var wasEmpty := rx.Of(ch).fifo == [];
            rx := rx.With(ch, rx.Of(ch).(fifo := rx.Of(ch).fifo + [heard]));
            if wasEmpty {
              regs := regs[RDR0 + ch := heard];
              rdrOverwritten := rdrOverwritten.With(ch, false);
            }
          }
        }
      }
    }

    /** The body of the loop of `advance_asci`. */
    method AdvanceChannel(ch: Ch, cycles: nat)
      modifies `tx, `rx, `incoming, `rdrOverwritten, `regs
      ensures Channels().Of(ch) == AdvanceChannelView(old(Channels()).Of(ch), cycles)
      ensures Channels().Of(1 - ch) == old(Channels()).Of(1 - ch)
      ensures forall i :: 0 <= i < IO_REGISTER_COUNT && !ShowsLine(i) ==> regs[i] == old(regs)[i]
    {
      hide LineSetupAt, Transmit, Receive, SyncStat, Overruns, Shows, Received;
      AdvanceTransmitter(ch, cycles);
      AdvanceReceiver(ch, cycles);
      SameSetup(variant, old(regs), regs, ch);
      SameSetup(variant, old(regs), regs, 1 - ch);
      SyncAsciStatus(ch);
    }

    /** `advance_asci`: both channels advance, unless IOSTOP holds them, and nothing else does. */
    method AdvanceAsci(cycles: nat)
      modifies `irqPending, `tx, `rx, `incoming, `rdrOverwritten, `regs
      ensures forall i :: 0 <= i < IO_REGISTER_COUNT && !ShowsLine(i) ==> regs[i] == old(regs)[i]
      ensures irqPending
              == AsciRequests(old(irqPending), Channels().first.line, Channels().second.line, Wires())
      ensures Channels().first == ChannelAfter(old(Channels()).first, regs[ICR].b5, cycles)
      ensures Channels().second == ChannelAfter(old(Channels()).second, regs[ICR].b5, cycles)
      ensures Prt() == old(Prt()) && Csio() == old(Csio()) && Wires() == old(Wires())
    {
      hide LineSetupAt, WiringAt, PrtAt, AsciRequests, AdvanceChannelView, ChannelsAt;
      if regs[ICR].b5 {
        UpdateAsciRequests();
        return;
      }
      ghost var c := Channels();
      for ch := 0 to 2
        modifies `tx, `rx, `incoming, `rdrOverwritten, `regs
        invariant forall i :: 0 <= i < IO_REGISTER_COUNT && !ShowsLine(i) ==> regs[i] == old(regs)[i]
        invariant Channels() == Two(if ch == 0 then c.first else AdvanceChannelView(c.first, cycles),
                                    if ch < 2 then c.second else AdvanceChannelView(c.second, cycles))
      {
        AdvanceChannel(ch, cycles);
      }
      AdvancedKeepsCarrier(c.second, cycles);
      TimeKeepsWiring(variant, old(regs), regs, cts, dcdIrqPending);
      SamePrt(old(regs), regs);
      UpdateAsciRequests();
    }

    // ------------------------------------------------------------------------------ the CSI/O

    method UpdateCsioRequest()
      modifies `irqPending
      ensures irqPending == CsioRequest(old(irqPending), regs[CNTR])
    {
      irqPending := irqPending.(b4 := regs[CNTR].b7 && regs[CNTR].b6);
    }

    /** A transfer is over: the last part of `advance_csio`. */
    method EndTransfer() returns (ended: bool)
      modifies `csioRxShift, `csioCycles, `csioClocked, `csioOutput, `regs
      ensures old(csioClocked) ==> Csio() == SerialUnits.AdvanceCsio(old(Csio()), old(csioCycles))
      ensures old(csioClocked) ==> ended == CsioEnds(old(Csio()), old(csioCycles))
      ensures forall i :: 0 <= i < IO_REGISTER_COUNT && i != CNTR && i != TRD ==> regs[i] == old(regs)[i]
    {
      ended := true;
      csioCycles := 0;
      csioClocked := false;
      if regs[CNTR].b4 {
        csioOutput := csioOutput + [regs[TRD]];
        regs := regs[CNTR := regs[CNTR].(b4 := false, b7 := true)];
      } else if regs[CNTR].b5 {
        match csioRxShift {
          case None => ended := false;
          case Some(heard) =>
            csioRxShift := None;
            regs := regs[TRD := heard];
            regs := regs[CNTR := regs[CNTR].(b5 := false, b7 := true)];
        }
      }
    }

    /** `advance_csio`. */
    method AdvanceTransfer(cycles: nat)
      modifies `irqPending, `csioRxShift, `csioCycles, `csioClocked, `csioOutput, `regs
      ensures Csio() == if regs[ICR].b5 then old(Csio()) else SerialUnits.AdvanceCsio(old(Csio()), cycles)
      ensures irqPending == if !regs[ICR].b5 && CsioEnds(old(Csio()), cycles)
                            then CsioRequest(old(irqPending), regs[CNTR]) else old(irqPending)
      ensures forall i :: 0 <= i < IO_REGISTER_COUNT && i != CNTR && i != TRD ==> regs[i] == old(regs)[i]
    {
      hide CsioRequest;
      if regs[ICR].b5 || !csioClocked {
        return;
      }
      if csioCycles > cycles {
        csioCycles := csioCycles - cycles;
        return;
      }
      var ended := EndTransfer();
      if ended {
        UpdateCsioRequest();
      }
    }

    /** The CSI/O advances, and nothing else does. */
    method AdvanceCsio(cycles: nat)
      modifies `irqPending, `csioRxShift, `csioCycles, `csioClocked, `csioOutput, `regs
      ensures Csio() == if regs[ICR].b5 then old(Csio()) else SerialUnits.AdvanceCsio(old(Csio()), cycles)
      ensures irqPending == if !regs[ICR].b5 && CsioEnds(old(Csio()), cycles)
                            then CsioRequest(old(irqPending), regs[CNTR]) else old(irqPending)
      ensures Prt() == old(Prt()) && Channels() == old(Channels()) && Wires() == old(Wires())
      ensures forall i :: 0 <= i < IO_REGISTER_COUNT && i != CNTR && i != TRD ==> regs[i] == old(regs)[i]
    {
      hide LineSetupAt, WiringAt, PrtAt;
      AdvanceTransfer(cycles);
      TimeKeepsWiring(variant, old(regs), regs, cts, dcdIrqPending);
      SamePrt(old(regs), regs);
    }

    // ------------------------------------------------------------------------------ elapsed time

    /** The free-running counter's part of `finish_step`. */
    method AdvanceFrc(cycles: nat) returns (ghost elapsed: nat)
      modifies `frcRemainder, `regs
      ensures old(frcRemainder) + cycles == 10 * elapsed + frcRemainder && frcRemainder < 10
      ensures regs[FRC].Value() == FrcAfter(old(regs)[FRC].Value(), elapsed)
      ensures Prt() == old(Prt()) && Channels() == old(Channels())
      ensures Csio() == old(Csio()) && Wires() == old(Wires())
      ensures forall i :: 0 <= i < IO_REGISTER_COUNT && i != FRC ==> regs[i] == old(regs)[i]
    {
      hide Bits.Value, Byte, LineSetupAt, WiringAt, PrtAt;
      var frcCycles := frcRemainder + cycles;
      var frcTicks := frcCycles / 10;
      elapsed := frcTicks;
      frcRemainder := frcCycles % 10;
      ByteValue((regs[FRC].Value() - frcTicks) % 256);
      regs := regs[FRC := Byte((regs[FRC].Value() - frcTicks) % 256)];
      TimeKeepsWiring(variant, old(regs), regs, cts, dcdIrqPending);
      SamePrt(old(regs), regs);
    }

    /** The calls of `finish_step`. */
    method AdvanceDevices(cycles: nat)
      modifies `irqPending, `frcRemainder, `prtRemainder, `cycleCount, `tx, `rx, `incoming, `rdrOverwritten
      modifies `csioRxShift, `csioCycles, `csioClocked, `csioOutput, `regs
      ensures Snapshot() == Finish(old(Snapshot()), old(Wires()), cycles)
      ensures Wires() == old(Wires())
      ensures Channels().first == ChannelAfter(old(Channels()).first, regs[ICR].b5, cycles)
      ensures Channels().second == ChannelAfter(old(Channels()).second, regs[ICR].b5, cycles)
      ensures forall i :: 0 <= i < IO_REGISTER_COUNT && !Elapses(i) ==> regs[i] == old(regs)[i]
    {
      hide Bits.Value, AdvanceLine, SerialUnits.AdvanceCsio, FrcAfter, Ticks, AsciRequests, CsioEnds;
      hide Finish, PrtRequests, CsioRequest, LineSetupAt, ChannelsAt, WiringAt, PrtAt;
      ghost var d, w := Snapshot(), Wires();
      ghost var f := AdvanceFrc(cycles);
      ghost var p := AdvancePrt(cycles);
      AdvanceAsci(cycles);
      AdvanceCsio(cycles);
      cycleCount := cycleCount + cycles;
      assert Snapshot() == Step(d, w, cycles, f, frcRemainder, p, prtRemainder);
      FinishIs(d, w, cycles, f, frcRemainder, p, prtRemainder);
    }

    /** Charges `cycles` cycles to every device. */
    method FinishStep(cycles: nat)
      requires Valid()
      modifies `irqPending, `frcRemainder, `prtRemainder, `cycleCount, `tx, `rx, `incoming, `rdrOverwritten
      modifies `csioRxShift, `csioCycles, `csioClocked, `csioOutput, `regs
      ensures Valid()
      ensures Snapshot() == Finish(old(Snapshot()), old(Wires()), cycles)
      ensures Wires() == old(Wires())
      ensures Channels().first == ChannelAfter(old(Channels()).first, regs[ICR].b5, cycles)
      ensures Channels().second == ChannelAfter(old(Channels()).second, regs[ICR].b5, cycles)
      ensures Elapsed(old(Here()), cycles, Here()) && MaskTells(Here())
      ensures forall i :: 0 <= i < IO_REGISTER_COUNT && !Elapses(i) ==> regs[i] == old(regs)[i]
    {
      hide RequestsOf, Finish, ChannelAfter, ChannelView.Good, ChannelsAt, WiringAt, PrtAt, Elapsed, MaskTells;
      ghost var f := Here();
      ghost var d, w := Snapshot(), Wires();
      TimeKeepsChannel(Channels().first, outgoing.first, regs[ICR].b5, cycles);
      TimeKeepsChannel(Channels().second, outgoing.second, regs[ICR].b5, cycles);
      TimeKeepsRequests(d, w, regs[DSTAT], cycles);
      TimeKeepsDirection(d, w, cycles);
      QueuesFit(0);
      QueuesFit(1);
      AdvanceDevices(cycles);
      MaskIsRight();
      SnapshotIs();
      ElapsedIs(f, cycles, Here());
    }

    lemma QueuesFit(ch: Ch)
      requires Valid()
      ensures |rx.Of(ch).fifo| <= Capacity(variant)
      ensures SnapshotOf(Here()) == Snapshot() && WiresOf(Here()) == Wires()
    {
      hide LineSetupAt, Ledger.Balances;
      SnapshotIs();
      OkGood(Now(), ch);
      SetupIs(regs, ch);
    }

    lemma SnapshotIs()
      ensures SnapshotOf(Here()) == Snapshot() && WiresOf(Here()) == Wires()
    {
      hide LineSetupAt;
    }

    // ----------------------------------------------------------------- the ASCI, as the guest sees it

    /** A byte is stored in TDR and sent if it can be. */
    method FillTdr(ch: Ch, value: Bits)
      modifies `tx, `outgoing, `regs
      ensures regs[TDR0 + ch] == value
      ensures Channels().Of(ch) == old(Channels()).Of(ch).Filled(LineSetupAt(variant, regs, ch), regs[ICR].b5)
                                                       .Started().Synced()
      ensures Channels().Of(1 - ch) == old(Channels()).Of(1 - ch)
      ensures outgoing == old(outgoing).With(ch, TdrFilled(old(outgoing).Of(ch), old(tx).Of(ch), value,
                                                           regs[ICR].b5))
      ensures forall i :: 0 <= i < IO_REGISTER_COUNT && i != TDR0 + ch && i != STAT0 + ch ==>
                regs[i] == old(regs)[i]
    {
      hide LineSetupAt, ChannelsAt, Two.Of, ChannelView.Started, ChannelView.Synced, TdrFilled;
      ghost var v := Channels().Of(ch);
      Views(ch);
      regs := regs[TDR0 + ch := value];
      outgoing := outgoing.With(ch, TdrFilled(outgoing.Of(ch), tx.Of(ch), value, regs[ICR].b5));
      tx := tx.With(ch, tx.Of(ch).(tdrFull := !regs[ICR].b5));
      Views(ch);
      SameSetup(variant, old(regs), regs, 1 - ch);
      assert Channels().Of(ch) == v.Filled(LineSetupAt(variant, regs, ch), regs[ICR].b5);
      ghost var r := regs;
      StartAsciTransmit(ch);
      SyncAsciStatus(ch);
      SameSetups(variant, r, regs);
    }

    /** A byte has been stored in TDR and sent if it could be. */
    twostate predicate TdrWritten(ch: Ch, value: Bits)
      reads `regs, `tx, `rx, `incoming, `rdrOverwritten
    {
      && regs[TDR0 + ch] == value
      && Channels().Of(ch) == old(Channels()).Of(ch).Filled(LineSetupAt(variant, regs, ch), regs[ICR].b5)
                                                     .Started().Synced()
      && Channels().Of(1 - ch) == old(Channels()).Of(1 - ch)
      && forall i :: 0 <= i < IO_REGISTER_COUNT && i != TDR0 + ch && i != STAT0 + ch ==>
           regs[i] == old(regs)[i]
    }

    /** The guest writes TDR: a byte enters, and one is lost if TDR was full or IOSTOP is set. */
    method AcceptTdr(ch: Ch, value: Bits)
      requires Valid()
      modifies `tx, `outgoing, `irqPending, `regs
      ensures Valid() && TdrWritten(ch, value)
      ensures outgoing == old(outgoing).With(ch, TdrFilled(old(outgoing).Of(ch), old(tx).Of(ch), value,
                                                           regs[ICR].b5))
    {
      hide State.Ok, ChannelView.Good, AsciRequests, LineSetupAt, WiringAt, ChannelsAt, Two.Of;
      hide ChannelView.Filled, ChannelView.Started, ChannelView.Synced, TdrFilled;
      ghost var s := Now();
      OkGood(s, ch);
      TxIs(ch);
      FillTdr(ch, value);
      FilledIsGood(s.channels.Of(ch), s.outgoing.Of(ch), LineSetupAt(variant, regs, ch), regs[ICR].b5);
      UpdateAsciRequests();
      ChannelStep(s, Now(), ch);
    }

    method WriteTdr(ch: Ch, value: Bits)
      requires Valid()
      modifies `tx, `outgoing, `irqPending, `regs
      ensures Valid() && TdrWritten(ch, value)
      ensures outgoing == old(outgoing).With(ch, TdrFilled(old(outgoing).Of(ch), old(tx).Of(ch), value,
                                                           regs[ICR].b5))
      ensures TdrDid(old(Here()), ch, value, Here())
    {
      hide Shown, SameAsci, Valid, LineSetupAt, WiringAt, ChannelsAt, Two.Of, TdrFilled, TdrDid;
      hide ChannelView.Filled, ChannelView.Started, ChannelView.Synced;
      ghost var f, v, other := Here(), Channels().Of(ch), Channels().Of(1 - ch);
      ShownIs(ch);
      ShownIs(1 - ch);
      AcceptTdr(ch, value);
      ShownIs(ch);
      ShownIs(1 - ch);
      OtherIs(f, Here(), 1 - ch, other, Channels().Of(1 - ch));
      TdrIs(f, ch, value, Here(), v, Channels().Of(ch));
    }

    /** CNTLA is stored: IOSTOP keeps both enables off. */
    method StoreCntla(ch: Ch, value: Bits)
      modifies `regs
      ensures regs[CNTLA0 + ch] == ControlByte(value, regs[ICR].b5)
      ensures Channels().Of(ch) == old(Channels()).Of(ch).Configured(LineSetupAt(variant, regs, ch),
                                                                     !regs[CNTLA0 + ch].b3)
      ensures Channels().Of(1 - ch) == old(Channels()).Of(1 - ch)
      ensures forall i :: 0 <= i < IO_REGISTER_COUNT && i != CNTLA0 + ch && i != STAT0 + ch ==>
                regs[i] == old(regs)[i]
    {
      hide LineSetupAt, ChannelsAt, Two.Of, ControlByte, ErrorsCleared;
      Views(ch);
      regs := regs[CNTLA0 + ch := ControlByte(value, regs[ICR].b5)];
      var status := regs[STAT0 + ch];
      regs := regs[STAT0 + ch := if !regs[CNTLA0 + ch].b3 then ErrorsCleared(status) else status];
      Views(ch);
      SameSetup(variant, old(regs), regs, 1 - ch);
    }

    /** The transmitter is turned off: what is in its shifter is dropped. */
    method HaltTransmitter(ch: Ch)
      modifies `tx, `outgoing
      ensures Channels().Of(ch) == old(Channels()).Of(ch).Halted()
      ensures Channels().Of(1 - ch) == old(Channels()).Of(1 - ch)
      ensures outgoing == old(outgoing).With(ch, ShifterDropped(old(outgoing).Of(ch), old(tx).Of(ch)))
    {
      hide LineSetupAt, ChannelsAt, Two.Of, ShifterDropped;
      Views(ch);
      outgoing := outgoing.With(ch, ShifterDropped(outgoing.Of(ch), tx.Of(ch)));
      tx := tx.With(ch, tx.Of(ch).(shift := None, cycles := 0, clocked := false));
      Views(ch);
    }

    /** The receiver, the transmitter or both are turned off. */
    method TurnOff(ch: Ch, receiver: bool, transmitter: bool)
      modifies `tx, `rx, `outgoing, `incoming, `regs
      ensures Channels().Of(ch) == old(Channels()).Of(ch).TurnedOff(receiver, transmitter)
      ensures Channels().Of(1 - ch) == old(Channels()).Of(1 - ch)
      ensures outgoing.Of(1 - ch) == old(outgoing).Of(1 - ch)
      ensures outgoing.Of(ch) == if transmitter then ShifterDropped(old(outgoing).Of(ch), old(tx).Of(ch))
                                 else old(outgoing).Of(ch)
      ensures forall i :: 0 <= i < IO_REGISTER_COUNT && i != STAT0 + ch ==> regs[i] == old(regs)[i]
    {
      hide LineSetupAt, ChannelsAt, Two.Of, ChannelView.Aborted, ChannelView.Halted;
      if receiver {
        AbortAsciReceive(ch, false);
      }
      if transmitter {
        HaltTransmitter(ch);
      }
    }

    /** `apply_asci_cntla_write`, up to the requests. */
    method ControlA(ch: Ch, value: Bits)
      modifies `tx, `rx, `outgoing, `incoming, `regs
      ensures regs[CNTLA0 + ch] == ControlByte(value, regs[ICR].b5)
      ensures var before, next := old(regs)[CNTLA0 + ch], regs[CNTLA0 + ch];
              && Channels().Of(ch) == old(Channels()).Of(ch).Controlled(
                   LineSetupAt(variant, regs, ch), !next.b3, before.b6 && !next.b6, before.b5 && !next.b5)
              && outgoing.Of(ch) == if before.b5 && !next.b5
                                    then ShifterDropped(old(outgoing).Of(ch), old(tx).Of(ch))
                                    else old(outgoing).Of(ch)
      ensures Channels().Of(1 - ch) == old(Channels()).Of(1 - ch)
      ensures outgoing.Of(1 - ch) == old(outgoing).Of(1 - ch)
      ensures forall i :: 0 <= i < IO_REGISTER_COUNT && i != CNTLA0 + ch && i != STAT0 + ch ==>
                regs[i] == old(regs)[i]
    {
      hide LineSetupAt, ChannelsAt, Two.Of, ChannelView.Started, ChannelView.Synced, ChannelView.Aborted;
      hide ChannelView.Configured, ChannelView.TurnedOff, ControlByte, ShifterDropped;
      var before := regs[CNTLA0 + ch];
      StoreCntla(ch, value);
      var next := regs[CNTLA0 + ch];
      ghost var r := regs;
      TurnOff(ch, before.b6 && !next.b6, before.b5 && !next.b5);
      StartAsciTransmit(ch);
      SyncAsciStatus(ch);
      SameSetups(variant, r, regs);
    }

    /** CNTLA has been stored, with all that follows from its enables. */
    twostate predicate CntlaWritten(ch: Ch, value: Bits)
      reads `regs, `tx, `rx, `incoming, `rdrOverwritten
    {
      var before, next := old(regs)[CNTLA0 + ch], regs[CNTLA0 + ch];
      && next == ControlByte(value, regs[ICR].b5)
      && Channels().Of(ch) == old(Channels()).Of(ch).Controlled(
           LineSetupAt(variant, regs, ch), !next.b3, before.b6 && !next.b6, before.b5 && !next.b5)
      && Channels().Of(1 - ch) == old(Channels()).Of(1 - ch)
      && forall i :: 0 <= i < IO_REGISTER_COUNT && i != CNTLA0 + ch && i != STAT0 + ch ==>
           regs[i] == old(regs)[i]
    }

    /** The guest writes CNTLA: only what is in a shifter that it turns off can be lost. */
    method AcceptCntla(ch: Ch, value: Bits)
      requires Valid()
      modifies `tx, `rx, `outgoing, `incoming, `irqPending, `regs
      ensures Valid() && CntlaWritten(ch, value)
      ensures regs[CNTLA0 + ch] == ControlByte(value, old(regs)[ICR].b5)
      ensures outgoing.Of(1 - ch) == old(outgoing).Of(1 - ch) && incoming.Of(1 - ch) == old(incoming).Of(1 - ch)
      ensures outgoing.Of(ch) == if old(regs)[CNTLA0 + ch].b5 && !regs[CNTLA0 + ch].b5
                                 then ShifterDropped(old(outgoing).Of(ch), old(tx).Of(ch))
                                 else old(outgoing).Of(ch)
      ensures incoming.Of(ch) == if old(regs)[CNTLA0 + ch].b6 && !regs[CNTLA0 + ch].b6
                                 then ReceptionDropped(old(incoming).Of(ch), old(rx).Of(ch), false)
                                 else old(incoming).Of(ch)
    {
      hide State.Ok, ChannelView.Good, AsciRequests, LineSetupAt, WiringAt, ChannelsAt, Two.Of;
      hide ChannelView.Controlled, ShifterDropped, ReceptionDropped, ControlByte;
      ghost var s, before := Now(), regs[CNTLA0 + ch];
      OkGood(s, ch);
      TxIs(ch);
      TxIs(1 - ch);
      ControlA(ch, value);
      ghost var next := regs[CNTLA0 + ch];
      ControlledIsGood(s.channels.Of(ch), s.outgoing.Of(ch), LineSetupAt(variant, regs, ch), !next.b3,
                       before.b6 && !next.b6, before.b5 && !next.b5);
      ControlledIs(s.channels.Of(ch), LineSetupAt(variant, regs, ch), !next.b3, before.b6 && !next.b6,
                   before.b5 && !next.b5);
      TxIs(ch);
      TxIs(1 - ch);
      UpdateAsciRequests();
      ChannelStep(s, Now(), ch);
    }

    method WriteCntla(ch: Ch, value: Bits)
      requires Valid()
      modifies `tx, `rx, `outgoing, `incoming, `irqPending, `regs
      ensures Valid() && CntlaWritten(ch, value)
      ensures regs[CNTLA0 + ch] == ControlByte(value, old(regs)[ICR].b5)
      ensures outgoing.Of(1 - ch) == old(outgoing).Of(1 - ch) && incoming.Of(1 - ch) == old(incoming).Of(1 - ch)
      ensures outgoing.Of(ch) == if old(regs)[CNTLA0 + ch].b5 && !regs[CNTLA0 + ch].b5
                                 then ShifterDropped(old(outgoing).Of(ch), old(tx).Of(ch))
                                 else old(outgoing).Of(ch)
      ensures incoming.Of(ch) == if old(regs)[CNTLA0 + ch].b6 && !regs[CNTLA0 + ch].b6
                                 then ReceptionDropped(old(incoming).Of(ch), old(rx).Of(ch), false)
                                 else old(incoming).Of(ch)
      ensures CntlaDid(old(Here()), ch, value, Here())
    {
      hide Shown, SameAsci, Valid, LineSetupAt, WiringAt, ChannelsAt, Two.Of, ChannelView.Controlled;
      hide ShifterDropped;
      hide ControlByte, CntlaDid, ReceptionDropped;
      ghost var f, v, other := Here(), Channels().Of(ch), Channels().Of(1 - ch);
      ShownIs(ch);
      ShownIs(1 - ch);
      AcceptCntla(ch, value);
      ShownIs(ch);
      ShownIs(1 - ch);
      OtherIs(f, Here(), 1 - ch, other, Channels().Of(1 - ch));
      CntlaIs(f, ch, value, Here(), v, Channels().Of(ch));
    }

    /** CNTLB is stored; a reception that had no clock may get one. */
    method ControlB(ch: Ch, value: Bits)
      modifies `rx, `regs
      ensures regs == old(regs)[CNTLB0 + ch := value]
      ensures Channels().Of(ch) == old(Channels()).Of(ch).Reclocked(LineSetupAt(variant, regs, ch))
      ensures Channels().Of(1 - ch) == old(Channels()).Of(1 - ch)
    {
      hide LineSetupAt, ChannelsAt, Two.Of;
      Views(ch);
      regs := regs[CNTLB0 + ch := value];
      SameSetup(variant, old(regs), regs, 1 - ch);
      FrameIs(ch);
      if rx.Of(ch).shift.Some? && !rx.Of(ch).clocked {
        match FrameAt(variant, regs, ch) {
          case Some(cycles) => rx := rx.With(ch, rx.Of(ch).(cycles := cycles, clocked := true));
          case None =>
        }
      }
      Views(ch);
    }

    lemma FrameIs(ch: Ch)
      ensures FrameAt(variant, regs, ch) == LineSetupAt(variant, regs, ch).frame
    {
    }

    method AcceptCntlb(ch: Ch, value: Bits)
      requires Valid()
      modifies `rx, `irqPending, `regs
      ensures Valid() && regs == old(regs)[CNTLB0 + ch := value]
      ensures Channels().Of(ch) == old(Channels()).Of(ch).Reclocked(LineSetupAt(variant, regs, ch))
      ensures Channels().Of(1 - ch) == old(Channels()).Of(1 - ch)
    {
      hide State.Ok, ChannelView.Good, AsciRequests, LineSetupAt, WiringAt, ChannelsAt, Two.Of;
      hide ChannelView.Reclocked;
      ghost var s := Now();
      OkGood(s, ch);
      TxIs(ch);
      ControlB(ch, value);
      TxIs(ch);
      SetupIs(old(regs), ch);
      SetupIs(regs, ch);
      ReclockedIsGood(s.channels.Of(ch), s.outgoing.Of(ch), LineSetupAt(variant, regs, ch));
      UpdateAsciRequests();
      ChannelStep(s, Now(), ch);
    }

    method WriteCntlb(ch: Ch, value: Bits)
      requires Valid()
      modifies `rx, `irqPending, `regs
      ensures Valid() && regs == old(regs)[CNTLB0 + ch := value]
      ensures Channels().Of(ch) == old(Channels()).Of(ch).Reclocked(LineSetupAt(variant, regs, ch))
      ensures Channels().Of(1 - ch) == old(Channels()).Of(1 - ch)
      ensures CntlbDid(old(Here()), ch, value, Here())
    {
      hide Shown, SameAsci, Valid, LineSetupAt, WiringAt, ChannelsAt, Two.Of, ChannelView.Reclocked, CntlbDid;
      ghost var f, v, other := Here(), Channels().Of(ch), Channels().Of(1 - ch);
      ShownIs(ch);
      ShownIs(1 - ch);
      AcceptCntlb(ch, value);
      ShownIs(ch);
      ShownIs(1 - ch);
      OtherIs(f, Here(), 1 - ch, other, Channels().Of(1 - ch));
      CntlbIs(f, ch, value, Here(), v, Channels().Of(ch));
    }

    lemma SetupIs(r: RegFile, ch: Ch)
      ensures LineSetupAt(variant, r, ch).capacity == Capacity(variant)
      ensures LineSetupAt(variant, r, ch).tdr == r[TDR0 + ch]
    {
    }

    /** The guest writes STAT: the two enables change, and on channel 1 the bit that CTS1 and CSI/O share. */
    method StoreStat(ch: Ch, value: Bits)
      modifies `csioRxShift, `csioCycles, `csioClocked, `regs
      ensures regs[STAT0 + ch] == Merge(old(regs)[STAT0 + ch], value, Byte(WriteMask(STAT0 + ch)))
      ensures Channels().Of(ch) == old(Channels()).Of(ch).Reread(LineSetupAt(variant, old(regs), ch),
                                                                 regs[STAT0 + ch], old(regs)[RDR0 + ch])
      ensures Channels().Of(1 - ch) == old(Channels()).Of(1 - ch)
      ensures if ch == 1 && regs[STAT1].b2
              then Csio() == AbortedReceive(old(Csio())) else Csio() == old(Csio())
      ensures forall i :: 0 <= i < IO_REGISTER_COUNT && i != CNTR && i != STAT0 + ch ==> regs[i] == old(regs)[i]
    {
      hide LineSetupAt, ChannelsAt, Two.Of, Merge, Byte, WriteMask;
      Views(ch);
      regs := regs[STAT0 + ch := Merge(regs[STAT0 + ch], value, Byte(WriteMask(STAT0 + ch)))];
      if ch == 1 && regs[STAT1].b2 {
        AbortCsioReceive();
      }
      Views(ch);
      SameSetups(variant, old(regs), regs);
    }

    /** The writable bits of STAT have been stored; CTS1 stops a CSI/O reception. */
    twostate predicate StatWritten(ch: Ch, value: Bits)
      reads `regs, `csioRxShift, `csioCycles, `csioClocked, `csioOutput
    {
      && regs[STAT0 + ch] == Merge(old(regs)[STAT0 + ch], value, Byte(WriteMask(STAT0 + ch)))
      && Csio() == (if ch == 1 && regs[STAT1].b2 then AbortedReceive(old(Csio())) else old(Csio()))
      && forall i :: 0 <= i < IO_REGISTER_COUNT && i != CNTR && i != STAT0 + ch ==> regs[i] == old(regs)[i]
    }

    method AcceptStat(ch: Ch, value: Bits)
      requires Valid()
      modifies `irqPending, `csioRxShift, `csioCycles, `csioClocked, `regs
      ensures Valid() && StatWritten(ch, value)
    {
      hide State.Ok, ChannelView.Good, AsciRequests, LineSetupAt, WiringAt, ChannelsAt, Two.Of, Byte, Merge;
      ghost var s := Now();
      OkGood(s, ch);
      Views(ch);
      StoreStat(ch, value);
      RereadIsGood(s.channels.Of(ch), s.outgoing.Of(ch), value, ch);
      UpdateAsciRequests();
      ChannelStep(s, Now(), ch);
    }

    method WriteStat(ch: Ch, value: Bits)
      requires Valid()
      modifies `irqPending, `csioRxShift, `csioCycles, `csioClocked, `regs
      ensures Valid() && StatWritten(ch, value)
      ensures StatDid(old(Here()), ch, value, Here())
    {
      hide Valid, LineSetupAt, WiringAt, ChannelsAt, AbortedReceive, StatDid, Merge, Byte, WriteMask;
      ghost var f := Here();
      AcceptStat(ch, value);
      StatIs(f, ch, value, Here());
    }

    method AbortCsioReceive()
      modifies `csioRxShift, `csioCycles, `csioClocked, `regs
      ensures regs == old(regs)[CNTR := old(regs)[CNTR].(b5 := false)]
      ensures Csio() == AbortedReceive(old(Csio()))
    {
      regs := regs[CNTR := regs[CNTR].(b5 := false)];
      csioRxShift := None;
      csioCycles := 0;
      csioClocked := false;
    }

    /** ASEXT is stored; channel 0 may now be stopped by a carrier that is already lost. */
    method StoreAsext(ch: Ch, value: Bits)
      modifies `rx, `incoming, `regs
      ensures regs[ASEXT0 + ch] == Merge(old(regs)[ASEXT0 + ch], value, Byte(WriteMask(ASEXT0 + ch)))
      ensures var v := old(Channels()).Of(ch).(setup := LineSetupAt(variant, regs, ch));
              Channels().Of(ch) == if ch == 0 && DcdAutoEnabled() && dcdLatched then v.Aborted(true) else v
      ensures Channels().Of(1 - ch) == old(Channels()).Of(1 - ch)
      ensures forall i :: 0 <= i < IO_REGISTER_COUNT && i != ASEXT0 + ch && i != STAT0 + ch ==>
                regs[i] == old(regs)[i]
    {
      hide LineSetupAt, ChannelsAt, Two.Of, Merge, Byte, WriteMask, ChannelView.Aborted;
      Views(ch);
      regs := regs[ASEXT0 + ch := Merge(regs[ASEXT0 + ch], value, Byte(WriteMask(ASEXT0 + ch)))];
      ghost var r := regs;
      Views(ch);
      SameSetup(variant, old(regs), regs, 1 - ch);
      if ch == 0 && DcdAutoEnabled() && dcdLatched {
        AbortAsciReceive(0, true);
      }
      SameSetups(variant, r, regs);
    }

    /** ASEXT has been stored, and a latched carrier loss has been applied. */
    twostate predicate AsextWritten(ch: Ch, value: Bits)
      reads `regs, `tx, `rx, `incoming, `rdrOverwritten, `dcdLatched
    {
      var v := old(Channels()).Of(ch).(setup := LineSetupAt(variant, regs, ch));
      && regs[ASEXT0 + ch] == Merge(old(regs)[ASEXT0 + ch], value, Byte(WriteMask(ASEXT0 + ch)))
      && Channels().Of(ch) == (if ch == 0 && DcdAutoEnabled() && dcdLatched then v.Aborted(true) else v)
      && Channels().Of(1 - ch) == old(Channels()).Of(1 - ch)
      && forall i :: 0 <= i < IO_REGISTER_COUNT && i != ASEXT0 + ch && i != STAT0 + ch ==>
           regs[i] == old(regs)[i]
    }

    method AcceptAsext(ch: Ch, value: Bits)
      requires Valid()
      modifies `rx, `incoming, `irqPending, `regs
      ensures Valid() && AsextWritten(ch, value)
      ensures incoming.Of(1 - ch) == old(incoming).Of(1 - ch)
      ensures incoming.Of(ch) == if ch == 0 && DcdAutoEnabled() && dcdLatched
                                 then ReceptionDropped(old(incoming).Of(ch), old(rx).Of(ch), true)
                                 else old(incoming).Of(ch)
    {
      hide State.Ok, ChannelView.Good, AsciRequests, LineSetupAt, WiringAt, ChannelsAt, Two.Of;
      hide Merge, Byte, WriteMask, ChannelView.Aborted, ReceptionDropped;
      ghost var s := Now();
      OkGood(s, ch);
      TxIs(ch);
      TxIs(1 - ch);
      SetupIs(old(regs), ch);
      StoreAsext(ch, value);
      SetupIs(regs, ch);
      AbortedIsGood(s.channels.Of(ch), s.outgoing.Of(ch), LineSetupAt(variant, regs, ch));
      AbortedIs(s.channels.Of(ch), LineSetupAt(variant, regs, ch));
      TxIs(ch);
      TxIs(1 - ch);
      UpdateAsciRequests();
      ChannelStep(s, Now(), ch);
    }

    method WriteAsext(ch: Ch, value: Bits)
      requires Valid()
      modifies `rx, `incoming, `irqPending, `regs
      ensures Valid() && AsextWritten(ch, value)
      ensures regs[ASEXT0 + ch] == Merge(old(regs)[ASEXT0 + ch], value, Byte(WriteMask(ASEXT0 + ch)))
      ensures incoming.Of(1 - ch) == old(incoming).Of(1 - ch)
      ensures incoming.Of(ch) == if ch == 0 && DcdAutoEnabled() && dcdLatched
                                 then ReceptionDropped(old(incoming).Of(ch), old(rx).Of(ch), true)
                                 else old(incoming).Of(ch)
      ensures AsextDid(old(Here()), ch, value, Here())
    {
      hide Shown, SameAsci, Valid, LineSetupAt, WiringAt, ChannelsAt, Two.Of, ChannelView.Aborted, AsextDid;
      hide Merge, Byte;
      hide WriteMask, ReceptionDropped;
      ghost var f, v, other := Here(), Channels().Of(ch), Channels().Of(1 - ch);
      ShownIs(ch);
      ShownIs(1 - ch);
      AcceptAsext(ch, value);
      ShownIs(ch);
      ShownIs(1 - ch);
      OtherIs(f, Here(), 1 - ch, other, Channels().Of(1 - ch));
      AsextIs(f, ch, value, Here(), v, Channels().Of(ch));
    }

    /** RDR has been stored: the Z8S180 keeps a received byte that has not been read, the Z80180 does not. */
    twostate predicate RdrWritten(ch: Ch, value: Bits)
      reads `regs, `rdrOverwritten
    {
      && regs == old(regs)[RDR0 + ch := if variant == Z8S180 && old(regs)[STAT0 + ch].b7
                                        then old(regs)[RDR0 + ch] else value]
      && rdrOverwritten == old(rdrOverwritten).With(ch, old(rdrOverwritten).Of(ch) || variant == Z80180)
    }

    method WriteRdr(ch: Ch, value: Bits)
      requires Valid()
      modifies `regs, `rdrOverwritten
      ensures Valid() && RdrWritten(ch, value)
    {
      hide State.Ok, AsciRequests, LineSetupAt, WiringAt, ChannelsAt, Two.Of;
      ghost var s := Now();
      OkGood(s, ch);
      Views(ch);
      SetupIs(regs, ch);
      if !(variant == Z8S180 && regs[STAT0 + ch].b7) {
        regs := regs[RDR0 + ch := value];
      }
      rdrOverwritten := rdrOverwritten.With(ch, rdrOverwritten.Of(ch) || variant == Z80180);
      Views(ch);
      SameSetups(variant, old(regs), regs);
      TimeKeepsWiring(variant, old(regs), regs, cts, dcdIrqPending);
      LineStep(s, Now(), ch);
    }

    /** The guest reads RDR: the oldest received byte, unless it has written over it. */
    method ReadRdr(ch: Ch) returns (value: Bits)
      requires Valid()
      modifies `rx, `incoming, `irqPending, `regs
      ensures Valid()
      ensures old(rx).Of(ch).fifo != [] && !rdrOverwritten.Of(ch) ==> value == old(rx).Of(ch).fifo[0]
      ensures value == old(regs)[RDR0 + ch]
      ensures Channels().Of(ch) == old(Channels()).Of(ch).Taken()
      ensures Channels().Of(1 - ch) == old(Channels()).Of(1 - ch)
      ensures incoming == if old(rx).Of(ch).fifo == [] then old(incoming)
                          else old(incoming).With(ch, old(incoming).Of(ch).Depart(old(rx).Of(ch).fifo[0]))
      ensures forall i :: 0 <= i < IO_REGISTER_COUNT && i != RDR0 + ch && i != STAT0 + ch ==>
                regs[i] == old(regs)[i]
    {
      hide State.Ok, AsciRequests, LineSetupAt, WiringAt, ChannelsAt, Two.Of, ChannelView.Taken;
      ghost var s := Now();
      OkGood(s, ch);
      Views(ch);
      value := regs[RDR0 + ch];
      TakeReceived(ch);
      TakenIsGood(s.channels.Of(ch), s.outgoing.Of(ch));
      UpdateAsciRequests();
      ChannelStep(s, Now(), ch);
    }

    method TakeReceived(ch: Ch)
      modifies `rx, `incoming, `regs
      ensures Channels().Of(ch) == old(Channels()).Of(ch).Taken()
      ensures Channels().Of(1 - ch) == old(Channels()).Of(1 - ch)
      ensures incoming == if old(rx).Of(ch).fifo == [] then old(incoming)
                          else old(incoming).With(ch, old(incoming).Of(ch).Depart(old(rx).Of(ch).fifo[0]))
      ensures forall i :: 0 <= i < IO_REGISTER_COUNT && i != RDR0 + ch && i != STAT0 + ch ==>
                regs[i] == old(regs)[i]
    {
      hide LineSetupAt, ChannelsAt, Two.Of, ChannelView.Synced;
      Views(ch);
      if rx.Of(ch).fifo != [] {
        incoming := incoming.With(ch, incoming.Of(ch).Depart(rx.Of(ch).fifo[0]));
        rx := rx.With(ch, rx.Of(ch).(fifo := rx.Of(ch).fifo[1..]));
        if rx.Of(ch).fifo != [] {
          regs := regs[RDR0 + ch := rx.Of(ch).fifo[0]];
        }
      }
      Views(ch);
      SameSetups(variant, old(regs), regs);
      SyncAsciStatus(ch);
    }

    // ------------------------------------------------------------------ the ASCI, as the host sees it

    method StartReception(ch: Ch, b: Bits)
      modifies `rx, `incoming
      ensures incoming == old(incoming).With(ch, old(incoming).Of(ch).Enter(b))
      ensures Channels().Of(ch) == old(Channels()).Of(ch).Heard(b)
      ensures Channels().Of(1 - ch) == old(Channels()).Of(1 - ch)
    {
      hide LineSetupAt, ChannelsAt, Two.Of, Ledger.Enter;
      Views(ch);
      FrameIs(ch);
      incoming := incoming.With(ch, incoming.Of(ch).Enter(b));
      match FrameAt(variant, regs, ch) {
        case Some(cycles) => rx := rx.With(ch, Rx(Some(b), cycles, true, rx.Of(ch).fifo));
        case None => rx := rx.With(ch, Rx(Some(b), 0, false, rx.Of(ch).fifo));
      }
      Views(ch);
    }

    /** A byte starts to come in. */
    method TakeByte(ch: Ch, b: Bits)
      requires Valid() && rx.Of(ch).shift.None?
      modifies `rx, `incoming
      ensures Valid() && Channels().Of(ch) == old(Channels()).Of(ch).Heard(b)
      ensures Channels().Of(1 - ch) == old(Channels()).Of(1 - ch)
      ensures incoming == old(incoming).With(ch, old(incoming).Of(ch).Enter(b))
    {
      hide State.Ok, ChannelView.Good, LineSetupAt, WiringAt, ChannelsAt, Two.Of, ChannelView.Heard;
      hide Ledger.Enter;
      ghost var s := Now();
      OkGood(s, ch);
      TxIs(ch);
      HeardKeeps(s.channels.Of(ch), b);
      HeardIsGood(s.channels.Of(ch), s.outgoing.Of(ch), b);
      StartReception(ch, b);
      LineStep(s, Now(), ch);
    }

    method HearByte(ch: Ch, b: Bits)
      requires Valid() && rx.Of(ch).shift.None?
      modifies `rx, `incoming
      ensures Valid() && Channels().Of(ch) == old(Channels()).Of(ch).Heard(b)
      ensures Channels().Of(1 - ch) == old(Channels()).Of(1 - ch)
      ensures incoming == old(incoming).With(ch, old(incoming).Of(ch).Enter(b))
      ensures HearDid(old(Here()), ch, b, Here())
    {
      hide Shown, SameAsci, Valid, LineSetupAt, WiringAt, ChannelsAt, Two.Of, ChannelView.Heard, HearDid;
      hide Ledger.Enter;
      ghost var f, v, other := Here(), Channels().Of(ch), Channels().Of(1 - ch);
      ShownIs(ch);
      ShownIs(1 - ch);
      TakeByte(ch, b);
      ShownIs(ch);
      ShownIs(1 - ch);
      OtherIs(f, Here(), 1 - ch, other, Channels().Of(1 - ch));
      HearIs(f, ch, b, Here(), v, Channels().Of(ch));
    }

    /** A byte arrives on the line, if the channel can hear it. */
    method AsciRxPush(ch: nat, b: Bits) returns (taken: bool)
      requires Valid()
      modifies `rx, `incoming
      ensures Valid()
      ensures taken <==> ch < 2 && Listens(old(Here()), ch) && old(rx).Of(ch).shift.None?
      ensures taken ==> HearDid(old(Here()), ch, b, Here())
      ensures taken ==> Channels().Of(ch) == old(Channels()).Of(ch).Heard(b)
                        && Channels().Of(1 - ch) == old(Channels()).Of(1 - ch)
                        && incoming == old(incoming).With(ch, old(incoming).Of(ch).Enter(b))
      ensures !taken ==> rx == old(rx) && incoming == old(incoming)
    {
      hide Valid, LineSetupAt, WiringAt, ChannelsAt, Two.Of, ChannelView.Heard, HearDid;
      hide Ledger.Enter;
      if ch >= 2 || !ReceiverEnabled(ch) || rx.Of(ch).shift.Some? {
        return false;
      }
      HearByte(ch, b);
      taken := true;
    }

    /** The oldest byte that went out is taken. */
    method TakeSent(ch: Ch) returns (b: Bits)
      requires Valid() && tx.Of(ch).output != []
      modifies `tx, `outgoing
      ensures Valid() && b == old(tx).Of(ch).output[0]
      ensures Channels().Of(ch) == old(Channels()).Of(ch).Popped()
      ensures Channels().Of(1 - ch) == old(Channels()).Of(1 - ch)
      ensures outgoing == old(outgoing).With(ch, old(outgoing).Of(ch).Depart(b))
    {
      hide State.Ok, ChannelView.Good, LineSetupAt, WiringAt, ChannelsAt, Two.Of, Ledger.Depart;
      ghost var s := Now();
      OkGood(s, ch);
      Views(ch);
      PoppedIsGood(s.channels.Of(ch), s.outgoing.Of(ch));
      b := tx.Of(ch).output[0];
      outgoing := outgoing.With(ch, outgoing.Of(ch).Depart(b));
      tx := tx.With(ch, tx.Of(ch).(output := tx.Of(ch).output[1..]));
      Views(ch);
      LineStep(s, Now(), ch);
    }

    method PopSent(ch: Ch) returns (b: Bits)
      requires Valid() && tx.Of(ch).output != []
      modifies `tx, `outgoing
      ensures Valid() && b == old(tx).Of(ch).output[0]
      ensures Channels().Of(ch) == old(Channels()).Of(ch).Popped()
      ensures Channels().Of(1 - ch) == old(Channels()).Of(1 - ch)
      ensures outgoing == old(outgoing).With(ch, old(outgoing).Of(ch).Depart(b))
      ensures PopDid(old(Here()), ch, b, Here())
    {
      hide Shown, SameAsci, Valid, LineSetupAt, WiringAt, ChannelsAt, Two.Of, PopDid, Ledger.Depart;
      ghost var f, v, other := Here(), Channels().Of(ch), Channels().Of(1 - ch);
      ShownIs(ch);
      ShownIs(1 - ch);
      TxIs(ch);
      b := TakeSent(ch);
      ShownIs(ch);
      ShownIs(1 - ch);
      OtherIs(f, Here(), 1 - ch, other, Channels().Of(1 - ch));
      PopIs(f, ch, b, Here(), v, Channels().Of(ch));
    }

    /** The host takes the oldest byte that went out. */
    method AsciTxPop(ch: nat) returns (r: Option<Bits>)
      requires Valid()
      modifies `tx, `outgoing
      ensures Valid()
      ensures r == if ch < 2 && old(tx).Of(ch).output != [] then Some(old(tx).Of(ch).output[0]) else None
      ensures r.Some? ==>
                && PopDid(old(Here()), ch, r.value, Here())
                && Channels().Of(ch) == old(Channels()).Of(ch).Popped()
                && Channels().Of(1 - ch) == old(Channels()).Of(1 - ch)
                && outgoing == old(outgoing).With(ch, old(outgoing).Of(ch).Depart(r.value))
      ensures r.None? ==> tx == old(tx) && outgoing == old(outgoing)
    {
      hide Valid, LineSetupAt, WiringAt, ChannelsAt, Two.Of, Ledger.Depart, PopDid;
      if ch >= 2 || tx.Of(ch).output == [] {
        return None;
      }
      TxIs(ch);
      var b := PopSent(ch);
      r := Some(b);
    }

    method SetAsciCts(ch: nat, level: bool)
      requires Valid()
      modifies `cts, `irqPending
      ensures Valid()
      ensures cts == if ch < 2 then old(cts).With(ch, level) else old(cts)
    {
      hide State.Ok, ChannelView.Good, AsciRequests, LineSetupAt, WiringAt, ChannelsAt, Two.Of;
      if ch >= 2 {
        return;
      }
      ghost var s := Now();
      OkGood(s, ch);
      cts := cts.With(ch, level);
      UpdateAsciRequests();
      ChannelStep(s, Now(), ch);
    }

    /** A carrier that is lost is latched, asks for an interrupt and may stop reception. */
    method CarryDcd(ch: nat, level: bool)
      requires Valid()
      modifies `dcd, `dcdLatched, `dcdIrqPending, `rx, `incoming, `irqPending, `regs
      ensures Valid()
      ensures var lost := ch == 0 && !old(dcd) && level;
              && dcd == (if ch == 0 then level else old(dcd))
              && dcdLatched == (old(dcdLatched) || lost)
              && dcdIrqPending == (old(dcdIrqPending) || lost)
              && Channels().first == (if lost && DcdAutoEnabled() then old(Channels()).first.Aborted(true)
                                      else old(Channels()).first)
              && Channels().second == old(Channels()).second
      ensures forall i :: 0 <= i < IO_REGISTER_COUNT && i != STAT0 ==> regs[i] == old(regs)[i]
    {
      hide State.Ok, ChannelView.Good, AsciRequests, LineSetupAt, WiringAt, ChannelsAt, ChannelView.Aborted;
      hide PageBase;
      if ch != 0 || dcd == level {
        return;
      }
      ghost var s := Now();
      OkGood(s, 0);
      AbortedIsGood(s.channels.first, s.outgoing.first, s.channels.first.setup);
      var previous := dcd;
      dcd := level;
      if !previous && level {
        dcdLatched := true;
        dcdIrqPending := true;
        if DcdAutoEnabled() {
          AbortAsciReceive(0, true);
        }
      }
      UpdateAsciRequests();
      ChannelStep(s, Now(), 0);
    }

    method SetAsciDcd(ch: nat, level: bool)
      requires Valid()
      modifies `dcd, `dcdLatched, `dcdIrqPending, `rx, `incoming, `irqPending, `regs
      ensures Valid()
      ensures var lost := ch == 0 && !old(dcd) && level;
              && dcd == (if ch == 0 then level else old(dcd))
              && dcdLatched == (old(dcdLatched) || lost)
              && dcdIrqPending == (old(dcdIrqPending) || lost)
              && Channels().first == (if lost && DcdAutoEnabled() then old(Channels()).first.Aborted(true)
                                      else old(Channels()).first)
              && Channels().second == old(Channels()).second
      ensures forall i :: 0 <= i < IO_REGISTER_COUNT && i != STAT0 ==> regs[i] == old(regs)[i]
      ensures ch == 0 ==> DcdDid(old(Here()), level, Here())
      ensures ch != 0 ==> Here() == old(Here())
    {
      hide Valid, LineSetupAt, WiringAt, ChannelsAt, ChannelView.Aborted, DcdDid;
      if ch != 0 {
        return;
      }
      ghost var f, v := Here(), Channels().first;
      ShownIs(0);
      ShownIs(1);
      CarryDcd(ch, level);
      ShownIs(0);
      ShownIs(1);
      DcdIs(f, level, Here(), v, Channels().first);
    }

    /** The guest reads STAT. Reading STAT0 takes back the carrier's request, and its latch if the carrier
        has come back. */
    method ReadStat(ch: Ch) returns (value: Bits)
      requires Valid()
      modifies `dcdLatched, `dcdIrqPending, `irqPending
      ensures Valid()
      ensures value == old(AsciStatusValue(ch))
      ensures dcdIrqPending == (old(dcdIrqPending) && ch != 0)
      ensures dcdLatched == (old(dcdLatched) && (ch != 0 || dcd))
    {
      hide State.Ok, ChannelView.Good, AsciRequests, LineSetupAt, WiringAt, ChannelsAt, Two.Of;
      value := AsciStatusValue(ch);
      if ch == 0 {
        ghost var s := Now();
        OkGood(s, ch);
        dcdIrqPending := false;
        if !dcd && dcdLatched {
          dcdLatched := false;
        }
        UpdateAsciRequests();
        ChannelStep(s, Now(), ch);
      }
    }

    // ---------------------------------------------------- the other registers, as the guest sees them

    /** `apply_csio_cntr_write`. */
    method ControlCsio(value: Bits)
      modifies `csioRxShift, `csioCycles, `csioClocked, `regs
      ensures regs == old(regs)[CNTR := CntrByte(old(regs)[CNTR], value, regs[ICR].b5, regs[STAT1].b2)]
      ensures Csio() == CsioControlled(old(Csio()), regs[CNTR])
    {
      hide TransferCycles;
      var before := regs[CNTR];
      var next := CntrByte(before, value, regs[ICR].b5, regs[STAT1].b2);
      regs := regs[CNTR := next];
      if before.b5 && !next.b5 {
        csioRxShift := None;
        csioCycles := 0;
        csioClocked := false;
      }
      if before.b4 && !next.b4 {
        csioCycles := 0;
        csioClocked := false;
      }
      if next.b5 && !before.b5 {
        csioCycles := 0;
        csioClocked := false;
        csioRxShift := None;
      }
      if next.b4 && !before.b4 {
        csioRxShift := None;
        match TransferCycles(next) {
          case Some(cycles) => csioCycles := cycles; csioClocked := true;
          case None => csioCycles := 0; csioClocked := false;
        }
      }
    }

    method AcceptCntr(value: Bits)
      requires Valid()
      modifies `csioRxShift, `csioCycles, `csioClocked, `irqPending, `regs
      ensures Valid()
      ensures regs == old(regs)[CNTR := CntrByte(old(regs)[CNTR], value, regs[ICR].b5, regs[STAT1].b2)]
      ensures Csio() == CsioControlled(old(Csio()), regs[CNTR])
    {
      hide State.Ok, CsioRequest, LineSetupAt, WiringAt, ChannelsAt, CntrByte, CsioControlled;
      ghost var s := Now();
      CntrIsEither(regs[CNTR], value, regs[ICR].b5, regs[STAT1].b2);
      ControlCsio(value);
      UpdateCsioRequest();
      Alike(variant, old(regs), regs, tx, rx, incoming, rdrOverwritten, cts, dcdIrqPending);
      CsioStep(s, Now());
    }

    method WriteCntr(value: Bits)
      requires Valid()
      modifies `csioRxShift, `csioCycles, `csioClocked, `irqPending, `regs
      ensures Valid()
      ensures regs == old(regs)[CNTR := CntrByte(old(regs)[CNTR], value, regs[ICR].b5, regs[STAT1].b2)]
      ensures Csio() == CsioControlled(old(Csio()), regs[CNTR])
      ensures CntrDid(old(Here()), value, Here())
    {
      hide Valid, LineSetupAt, WiringAt, ChannelsAt, CntrByte, CsioControlled, CntrDid;
      ghost var f := Here();
      AcceptCntr(value);
      CntrIs(f, value, Here());
    }

    /** Storing TRD or reading it takes back the end of the transfer. */
    method AcceptTrd(value: Bits)
      requires Valid()
      modifies `irqPending, `regs
      ensures Valid()
      ensures regs == old(regs)[TRD := value][CNTR := old(regs)[CNTR].(b7 := false)]
    {
      hide State.Ok, CsioRequest, LineSetupAt, WiringAt, ChannelsAt;
      ghost var s := Now();
      OkDirection(s);
      regs := regs[TRD := value];
      regs := regs[CNTR := regs[CNTR].(b7 := false)];
      UpdateCsioRequest();
      Alike(variant, old(regs), regs, tx, rx, incoming, rdrOverwritten, cts, dcdIrqPending);
      CsioStep(s, Now());
    }

    method WriteTrd(value: Bits)
      requires Valid()
      modifies `irqPending, `regs
      ensures Valid()
      ensures regs == old(regs)[TRD := value][CNTR := old(regs)[CNTR].(b7 := false)]
      ensures TrdDid(old(Here()), value, Here())
    {
      hide Valid, ChannelsAt, WiringAt;
      AcceptTrd(value);
    }

    method ReadTrd() returns (value: Bits)
      requires Valid()
      modifies `irqPending, `regs
      ensures Valid()
      ensures value == old(regs)[TRD] && regs == old(regs)[CNTR := old(regs)[CNTR].(b7 := false)]
    {
      hide State.Ok, CsioRequest, LineSetupAt, WiringAt, ChannelsAt;
      ghost var s := Now();
      OkDirection(s);
      value := regs[TRD];
      regs := regs[CNTR := regs[CNTR].(b7 := false)];
      UpdateCsioRequest();
      Alike(variant, old(regs), regs, tx, rx, incoming, rdrOverwritten, cts, dcdIrqPending);
      CsioStep(s, Now());
    }

    method CsioRxPush(b: Bits) returns (taken: bool)
      requires Valid()
      modifies `csioRxShift, `csioCycles, `csioClocked
      ensures Valid()
      ensures taken <==> !regs[ICR].b5 && regs[CNTR].b5 && !regs[STAT1].b2 && old(csioRxShift).None?
      ensures taken ==> csioRxShift == Some(b) && (csioClocked <==> TransferOf(regs[CNTR]).Some?)
                        && csioCycles == (match TransferOf(regs[CNTR]) case Some(n) => n case None => 0)
      ensures !taken ==> Csio() == old(Csio())
    {
      hide State.Ok, TransferCycles, TransferOf, ChannelsAt, WiringAt;
      TransferIs(regs[CNTR]);
      if regs[ICR].b5 || !regs[CNTR].b5 || regs[STAT1].b2 || csioRxShift.Some? {
        return false;
      }
      csioRxShift := Some(b);
      match TransferCycles(regs[CNTR]) {
        case Some(cycles) => csioCycles := cycles; csioClocked := true;
        case None => csioCycles := 0; csioClocked := false;
      }
      taken := true;
    }

    method CsioTxPop() returns (r: Option<Bits>)
      requires Valid()
      modifies `csioOutput
      ensures Valid()
      ensures r == if old(csioOutput) != [] then Some(old(csioOutput)[0]) else None
      ensures old(csioOutput) == (if r.Some? then [r.value] else []) + csioOutput
    {
      hide State.Ok, ChannelsAt, WiringAt;
      if csioOutput == [] {
        return None;
      }
      r := Some(csioOutput[0]);
      csioOutput := csioOutput[1..];
    }

    method AcceptTcr(value: Bits)
      requires Valid()
      modifies `irqPending, `regs
      ensures Valid()
      ensures regs == old(regs)[TCR := Merge(old(regs)[TCR], value, Byte(WriteMask(TCR)))]
    {
      hide State.Ok, PrtRequests, LineSetupAt, WiringAt, ChannelsAt, Merge, Byte;
      ghost var s := Now();
      regs := regs[TCR := Merge(regs[TCR], value, Byte(WriteMask(TCR)))];
      UpdatePrtRequests();
      Alike(variant, old(regs), regs, tx, rx, incoming, rdrOverwritten, cts, dcdIrqPending);
      PrtStep(s, Now());
    }

    method WriteTcr(value: Bits)
      requires Valid()
      modifies `irqPending, `regs
      ensures Valid()
      ensures regs == old(regs)[TCR := Merge(old(regs)[TCR], value, Byte(WriteMask(TCR)))]
      ensures PlainDid(old(Here()), TCR, value, Here()) && MaskTells(Here())
    {
      hide Valid, ChannelsAt, WiringAt, Merge, Byte, WriteMask, PlainByte, MaskTells;
      PlainIs(TCR, regs[TCR], value);
      AcceptTcr(value);
      MaskIsRight();
    }

    /** Reading TCR arms the flags that are set: reading the counter then clears them. */
    method ReadTcr() returns (value: Bits)
      requires Valid()
      modifies `clearArmed
      ensures Valid()
      ensures value == regs[TCR] && clearArmed == Two(value.b6, value.b7)
    {
      hide State.Ok, ChannelsAt, WiringAt;
      value := regs[TCR];
      clearArmed := Two(value.b6, value.b7);
    }

    /** The channel a counter register belongs to. */
    function TimerOf(index: nat): Ch {
      if index >= TMDR1L then 1 else 0
    }

    /** A counter byte has been stored, if its channel stands still. */
    twostate predicate TmdrWritten(index: nat, value: Bits)
      requires index < IO_REGISTER_COUNT
      reads `regs, `highLatchValid
    {
      var stands := !old(Prt()).Enabled(TimerOf(index) == 1);
      && regs == (if stands then old(regs)[index := value] else old(regs))
      && highLatchValid == (if stands then old(highLatchValid).With(TimerOf(index), false)
                            else old(highLatchValid))
    }

    method AcceptTmdr(index: nat, value: Bits)
      requires Valid() && IsTimer(index) && index != TCR
      modifies `highLatchValid, `regs
      ensures Valid() && TmdrWritten(index, value)
    {
      hide State.Ok, LineSetupAt, WiringAt, ChannelsAt, PageBase, Two.With;
      var ch := TimerOf(index);
      if !(if ch == 0 then regs[TCR].b0 else regs[TCR].b1) {
        highLatchValid := highLatchValid.With(ch, false);
        StorePlain(index, value);
      }
    }

    method WriteTmdr(index: nat, value: Bits)
      requires Valid() && IsTimer(index) && index != TCR
      modifies `highLatchValid, `regs
      ensures Valid() && TmdrWritten(index, value)
      ensures TmdrDid(old(Here()), index, value, Here())
    {
      hide Valid, ChannelsAt, WiringAt, TmdrDid, Two.With;
      ghost var f := Here();
      AcceptTmdr(index, value);
      TmdrStored(f, index, value, Here());
    }

    method ClearArmedFlag(ch: Ch)
      requires Valid()
      modifies `clearArmed, `irqPending, `regs
      ensures Valid()
      ensures clearArmed == old(clearArmed).With(ch, false)
      ensures regs == old(regs)[TCR := FlagCleared(old(regs)[TCR], ch, old(clearArmed).Of(ch))]
    {
      hide State.Ok, LineSetupAt, WiringAt, ChannelsAt, PrtRequests;
      ghost var s := Now();
      if clearArmed.Of(ch) {
        regs := regs[TCR := FlagCleared(regs[TCR], ch, true)];
        clearArmed := clearArmed.With(ch, false);
        UpdatePrtRequests();
        Alike(variant, old(regs), regs, tx, rx, incoming, rdrOverwritten, cts, dcdIrqPending);
        PrtStep(s, Now());
      }
    }

    /** Reading a counter byte has latched the high byte, or used the latch up, and has cleared a flag that
        was armed. */
    twostate predicate TimerRead(index: nat)
      reads `highLatch, `highLatchValid, `clearArmed, `regs
    {
      var ch := TimerOf(index);
      var high := if ch == 0 then TMDR0H else TMDR1H;
      && highLatch == (if index != high then old(highLatch).With(ch, old(regs)[high]) else old(highLatch))
      && highLatchValid == old(highLatchValid).With(ch, index != high)
      && clearArmed == old(clearArmed).With(ch, false)
      && regs == old(regs)[TCR := FlagCleared(old(regs)[TCR], ch, old(clearArmed).Of(ch))]
    }

    /** Reading the low byte of a counter latches the high one; reading either clears a flag that is armed. */
    method LatchTmdr(index: nat) returns (value: Bits)
      requires Valid() && IsTimer(index) && index != TCR
      modifies `highLatch, `highLatchValid, `clearArmed, `irqPending, `regs
      ensures Valid() && TimerRead(index)
      ensures var ch := TimerOf(index);
              var latched := index == (if ch == 0 then TMDR0H else TMDR1H) && old(highLatchValid).Of(ch);
              value == if latched then old(highLatch).Of(ch) else old(regs)[index]
    {
      hide State.Ok, LineSetupAt, WiringAt, ChannelsAt, FlagCleared;
      var ch := TimerOf(index);
      value := regs[index];
      if index == TMDR0L || index == TMDR1L {
        highLatch := highLatch.With(ch, regs[if ch == 0 then TMDR0H else TMDR1H]);
        highLatchValid := highLatchValid.With(ch, true);
      } else if highLatchValid.Of(ch) {
        highLatchValid := highLatchValid.With(ch, false);
        value := highLatch.Of(ch);
      }
      ClearArmedFlag(ch);
    }

    method ReadTmdr(index: nat) returns (value: Bits)
      requires Valid() && IsTimer(index) && index != TCR
      modifies `highLatch, `highLatchValid, `clearArmed, `irqPending, `regs
      ensures Valid() && TimerRead(index) && TmdrLeft(old(Here()), index, Here())
      ensures var ch := TimerOf(index);
              var latched := index == (if ch == 0 then TMDR0H else TMDR1H) && old(highLatchValid).Of(ch);
              value == if latched then old(highLatch).Of(ch) else old(regs)[index]
    {
      hide Valid, LineSetupAt, WiringAt, ChannelsAt, FlagCleared, TmdrLeft, Two.With;
      ghost var f := Here();
      value := LatchTmdr(index);
      TmdrIs(f, index, Here());
    }

    method UpdateDmaRequests()
      modifies `irqPending
      ensures irqPending == DmaRequests(old(irqPending), regs[DSTAT])
    {
      irqPending := irqPending.(b2 := regs[DSTAT].b2 && !regs[DSTAT].b6, b3 := regs[DSTAT].b3 && !regs[DSTAT].b7);
    }

    method WriteDstat(value: Bits)
      requires Valid()
      modifies `irqPending, `regs
      ensures Valid()
      ensures regs == old(regs)[DSTAT := DstatByte(old(regs)[DSTAT], value)]
    {
      hide State.Ok, DmaRequests, LineSetupAt, WiringAt, ChannelsAt, DstatByte;
      ghost var s := Now();
      regs := regs[DSTAT := DstatByte(regs[DSTAT], value)];
      UpdateDmaRequests();
      Alike(variant, old(regs), regs, tx, rx, incoming, rdrOverwritten, cts, dcdIrqPending);
      DmaStep(s, Now());
    }

    /** The transfer count of DMA channel 0 has run out. */
    method ClearDe0()
      requires Valid()
      modifies `irqPending, `regs
      ensures Valid() && regs == old(regs)[DSTAT := old(regs)[DSTAT].(b6 := false)]
    {
      hide State.Ok, DmaRequests, LineSetupAt, WiringAt, ChannelsAt;
      ghost var s := Now();
      regs := regs[DSTAT := regs[DSTAT].(b6 := false)];
      UpdateDmaRequests();
      Alike(variant, old(regs), regs, tx, rx, incoming, rdrOverwritten, cts, dcdIrqPending);
      DmaStep(s, Now());
    }

    /** The transfer count of DMA channel 1 has run out. */
    method ClearDe1()
      requires Valid()
      modifies `irqPending, `regs
      ensures Valid() && regs == old(regs)[DSTAT := old(regs)[DSTAT].(b7 := false)]
    {
      hide State.Ok, DmaRequests, LineSetupAt, WiringAt, ChannelsAt;
      ghost var s := Now();
      regs := regs[DSTAT := regs[DSTAT].(b7 := false)];
      UpdateDmaRequests();
      Alike(variant, old(regs), regs, tx, rx, incoming, rdrOverwritten, cts, dcdIrqPending);
      DmaStep(s, Now());
    }

    /** A register without an effect, or one whose effect is elsewhere. */
    method StorePlain(index: nat, value: Bits)
      requires Valid() && index < IO_REGISTER_COUNT
      requires WriteEffectOf(index) in {Store, WriteItc, WriteEffect.WriteTmdr}
      modifies `regs
      ensures Valid() && regs == old(regs)[index := value]
    {
      hide State.Ok, LineSetupAt, WiringAt, ChannelsAt, PageBase;
      ghost var s := Now();
      regs := regs[index := value];
      Alike(variant, old(regs), regs, tx, rx, incoming, rdrOverwritten, cts, dcdIrqPending);
      StoreStep(s, Now());
    }

    method RecomputeMmuPages()
      requires mmuPages.Length == 16
      modifies mmuPages
      ensures MapIsFresh()
    {
      hide Bits.Value;
      var ba, ca := Low4(regs[CBAR]), High4(regs[CBAR]);
      var bankBase: nat := regs[BBR].Value();
      var commonOneBase: nat := regs[CBR].Value();
      for page := 0 to 16
        invariant forall p :: 0 <= p < page ==> mmuPages[p] == PageBase(regs[CBR], regs[BBR], regs[CBAR], p)
      {
        var relocation := if page < ba then 0 else if page < ca then bankBase else commonOneBase;
        mmuPages[page] := ((relocation + page) % 256) * 4096;
      }
    }

    method WriteMmu(index: nat, value: Bits)
      requires Valid() && index in {CBR, BBR, CBAR}
      modifies `regs, mmuPages
      ensures Valid() && regs == old(regs)[index := value]
    {
      hide State.Ok, LineSetupAt, WiringAt, ChannelsAt, PageBase;
      ghost var s := Now();
      regs := regs[index := value];
      RecomputeMmuPages();
      Alike(variant, old(regs), regs, tx, rx, incoming, rdrOverwritten, cts, dcdIrqPending);
      StoreStep(s, Now());
    }

    /** `mmu_translate`: the offset in the page is kept, and the address has twenty bits. */
    function MmuTranslate(logical: nat): (physical: nat)
      requires MapIsFresh() && logical < 0x1_0000
      reads `regs, mmuPages
      ensures physical < 0x10_0000 && physical % 4096 == logical % 4096
      ensures physical / 4096
              == (logical / 4096 + (if logical / 4096 < regs[CBAR].Value() % 16 then 0
                                    else if logical / 4096 < regs[CBAR].Value() / 16 then regs[BBR].Value()
                                    else regs[CBR].Value())) % 256
    {
      hide Bits.Value;
      ValueParts(regs[CBAR]);
      mmuPages[logical / 4096] + logical % 4096
    }

    method EmptyTransmitter(ch: Ch)
      modifies `tx, `outgoing, `regs
      ensures Channels().Of(ch) == old(Channels()).Of(ch).Emptied(LineSetupAt(variant, regs, ch))
      ensures Channels().Of(1 - ch) == old(Channels()).Of(1 - ch)
      ensures outgoing.Of(1 - ch) == old(outgoing).Of(1 - ch)
      ensures outgoing.Of(ch) == TransmitterDropped(old(outgoing).Of(ch), old(tx).Of(ch))
      ensures regs == old(regs)[CNTLA0 + ch := ControlByte(old(regs)[CNTLA0 + ch], true)]
    {
      hide LineSetupAt, ChannelsAt, Two.Of, TransmitterDropped, ControlByte;
      Views(ch);
      outgoing := outgoing.With(ch, TransmitterDropped(outgoing.Of(ch), tx.Of(ch)));
      regs := regs[CNTLA0 + ch := ControlByte(regs[CNTLA0 + ch], true)];
      tx := tx.With(ch, Tx(false, None, 0, false, tx.Of(ch).output));
      Views(ch);
      SameSetup(variant, old(regs), regs, 1 - ch);
    }

    /** One channel under IOSTOP: the body of the loop of `stop_asci_for_iostop`. */
    method StopChannel(ch: Ch)
      modifies `tx, `rx, `outgoing, `incoming, `regs
      ensures Channels().Of(ch) == old(Channels()).Of(ch).Stopped(LineSetupAt(variant, regs, ch))
      ensures Channels().Of(1 - ch) == old(Channels()).Of(1 - ch)
      ensures outgoing.Of(1 - ch) == old(outgoing).Of(1 - ch)
      ensures outgoing.Of(ch) == TransmitterDropped(old(outgoing).Of(ch), old(tx).Of(ch))
      ensures regs[CNTLA0 + ch] == ControlByte(old(regs)[CNTLA0 + ch], true)
      ensures forall i :: 0 <= i < IO_REGISTER_COUNT && i != CNTLA0 + ch && i != STAT0 + ch ==>
                regs[i] == old(regs)[i]
    {
      hide LineSetupAt, ChannelsAt, Two.Of, TransmitterDropped, ChannelView.Aborted, ChannelView.Synced;
      hide ChannelView.Emptied, ControlByte;
      EmptyTransmitter(ch);
      ghost var r := regs;
      AbortAsciReceive(ch, true);
      SyncAsciStatus(ch);
      SameSetups(variant, r, regs);
    }

    /** `stop_asci_for_iostop`. */
    method StopAsciForIostop()
      modifies `tx, `rx, `outgoing, `incoming, `irqPending, `regs
      ensures Channels().first == old(Channels()).first.Stopped(LineSetupAt(variant, regs, 0))
      ensures Channels().second == old(Channels()).second.Stopped(LineSetupAt(variant, regs, 1))
      ensures outgoing == Two(TransmitterDropped(old(outgoing).first, old(tx).first),
                              TransmitterDropped(old(outgoing).second, old(tx).second))
      ensures irqPending
              == AsciRequests(old(irqPending), Channels().first.line, Channels().second.line, Wires())
      ensures regs[CNTLA0] == ControlByte(old(regs)[CNTLA0], true)
      ensures regs[CNTLA0 + 1] == ControlByte(old(regs)[CNTLA0 + 1], true)
      ensures forall i :: 0 <= i < IO_REGISTER_COUNT && !(CNTLA0 <= i < CNTLA0 + 2) && !(STAT0 <= i < STAT0 + 2)
                ==> regs[i] == old(regs)[i]
    {
      hide LineSetupAt, WiringAt, ChannelsAt, ChannelView.Stopped, TransmitterDropped, AsciRequests, ControlByte;
      TxIs(0);
      TxIs(1);
      ghost var c := Channels();
      StopChannel(0);
      TxIs(1);
      ghost var setup0 := LineSetupAt(variant, regs, 0);
      ghost var r := regs;
      StopChannel(1);
      SameSetup(variant, r, regs, 0);
      UpdateAsciRequests();
    }

    /** `stop_csio_for_iostop`. */
    method StopCsioForIostop()
      modifies `csioRxShift, `csioCycles, `csioClocked, `irqPending, `regs
      ensures regs == old(regs)[CNTR := old(regs)[CNTR].(b7 := false, b5 := false, b4 := false)]
      ensures csioRxShift.None? && csioCycles == 0 && !csioClocked
      ensures irqPending == CsioRequest(old(irqPending), regs[CNTR])
    {
      hide CsioRequest;
      regs := regs[CNTR := regs[CNTR].(b7 := false, b5 := false, b4 := false)];
      csioRxShift := None;
      csioCycles := 0;
      csioClocked := false;
      UpdateCsioRequest();
    }

    /** The channels stop. What was in their transmitters, shifters and FIFOs is lost. */
    method StopChannels()
      requires Valid()
      modifies `tx, `rx, `outgoing, `incoming, `irqPending, `regs
      ensures Valid()
      ensures Channels().first == old(Channels()).first.Stopped(LineSetupAt(variant, regs, 0))
      ensures Channels().second == old(Channels()).second.Stopped(LineSetupAt(variant, regs, 1))
      ensures outgoing == Two(TransmitterDropped(old(outgoing).first, old(tx).first),
                              TransmitterDropped(old(outgoing).second, old(tx).second))
      ensures regs[CNTLA0] == ControlByte(old(regs)[CNTLA0], true)
      ensures regs[CNTLA0 + 1] == ControlByte(old(regs)[CNTLA0 + 1], true)
      ensures forall i :: 0 <= i < IO_REGISTER_COUNT && !(CNTLA0 <= i < CNTLA0 + 2) && !(STAT0 <= i < STAT0 + 2)
                ==> regs[i] == old(regs)[i]
    {
      hide State.Ok, LineSetupAt, WiringAt, ChannelsAt, ChannelView.Stopped, ChannelView.Good, AsciRequests;
      hide TransmitterDropped, ControlByte;
      ghost var s := Now();
      OkGood(s, 0);
      OkGood(s, 1);
      TxIs(0);
      TxIs(1);
      SetupIs(regs, 0);
      SetupIs(regs, 1);
      StopAsciForIostop();
      SetupIs(regs, 0);
      SetupIs(regs, 1);
      StoppedIsGood(s.channels.first, s.outgoing.first, LineSetupAt(variant, regs, 0));
      StoppedIsGood(s.channels.second, s.outgoing.second, LineSetupAt(variant, regs, 1));
      ChannelsStep(s, Now());
    }

    method StopCsio()
      requires Valid()
      modifies `csioRxShift, `csioCycles, `csioClocked, `irqPending, `regs
      ensures Valid()
      ensures regs == old(regs)[CNTR := old(regs)[CNTR].(b7 := false, b5 := false, b4 := false)]
      ensures csioRxShift.None? && csioCycles == 0 && !csioClocked
      ensures Channels().first.Like(old(Channels()).first) && Channels().second.Like(old(Channels()).second)
    {
      hide State.Ok, LineSetupAt, WiringAt, ChannelsAt, CsioRequest;
      ghost var s := Now();
      StopCsioForIostop();
      Alike(variant, old(regs), regs, tx, rx, incoming, rdrOverwritten, cts, dcdIrqPending);
      CsioStep(s, Now());
    }

    method StoreIcr(value: Bits)
      requires Valid()
      modifies `regs
      ensures Valid() && regs == old(regs)[ICR := Merge(old(regs)[ICR], value, Byte(WriteMask(ICR)))]
    {
      hide State.Ok, LineSetupAt, WiringAt, ChannelsAt, Merge, Byte, WriteMask;
      ghost var s := Now();
      regs := regs[ICR := Merge(regs[ICR], value, Byte(WriteMask(ICR)))];
      Alike(variant, old(regs), regs, tx, rx, incoming, rdrOverwritten, cts, dcdIrqPending);
      StoreStep(s, Now());
    }

    /** Both ASCI channels stop, and nothing else does. */
    method StopBoth()
      requires Valid()
      modifies `tx, `rx, `outgoing, `incoming, `irqPending, `regs
      ensures Valid() && StoppedAsci(old(Here()), Here(), 0) && StoppedAsci(old(Here()), Here(), 1)
      ensures forall i :: 0 <= i < IO_REGISTER_COUNT && !(CNTLA0 <= i < CNTLA0 + 2) && !(STAT0 <= i < STAT0 + 2)
                ==> regs[i] == old(regs)[i]
      ensures outgoing == Two(TransmitterDropped(old(outgoing).first, old(tx).first),
                              TransmitterDropped(old(outgoing).second, old(tx).second))
      ensures incoming == Two(ReceptionDropped(old(incoming).first, old(rx).first, true),
                              ReceptionDropped(old(incoming).second, old(rx).second, true))
    {
      hide Valid, LineSetupAt, WiringAt, ChannelsAt, ChannelView.Stopped, TransmitterDropped, ReceptionDropped;
      hide StoppedAsci, ControlByte;
      ghost var f := Here();
      ghost var v0, v1 := Channels().first, Channels().second;
      TxIs(0);
      TxIs(1);
      StoppedIs(v0);
      StoppedIs(v1);
      ShownIs(0);
      ShownIs(1);
      StopChannels();
      TxIs(0);
      TxIs(1);
      ShownIs(0);
      ShownIs(1);
      StoppedAsciIs(f, Here(), 0, v0, Channels().first);
      StoppedAsciIs(f, Here(), 1, v1, Channels().second);
    }

    /** Stops the serial units. */
    method StopUnits()
      requires Valid()
      modifies `tx, `rx, `outgoing, `incoming, `csioRxShift, `csioCycles, `csioClocked, `irqPending, `regs
      ensures Valid() && csioRxShift.None? && csioCycles == 0 && !csioClocked
      ensures regs[CNTR] == old(regs)[CNTR].(b7 := false, b5 := false, b4 := false)
      ensures StoppedAsci(old(Here()), Here(), 0) && StoppedAsci(old(Here()), Here(), 1)
      ensures forall i :: 0 <= i < IO_REGISTER_COUNT && !Stops(i) ==> regs[i] == old(regs)[i]
      ensures outgoing == Two(TransmitterDropped(old(outgoing).first, old(tx).first),
                              TransmitterDropped(old(outgoing).second, old(tx).second))
      ensures incoming == Two(ReceptionDropped(old(incoming).first, old(rx).first, true),
                              ReceptionDropped(old(incoming).second, old(rx).second, true))
    {
      hide Valid, LineSetupAt, WiringAt, ChannelsAt, TransmitterDropped, ReceptionDropped, StoppedAsci;
      ghost var f := Here();
      StopBoth();
      ghost var g := Here();
      StopCsio();
      StoppedAsciStays(f, g, Here());
    }

    lemma ShownIs(ch: Ch)
      ensures Shown(Here(), ch, Channels().Of(ch))
    {
      hide LineSetupAt;
    }

    /** ICR has been stored. IOSTOP has stopped the serial units: what their transmitters, shifters and FIFOs
        held is gone; what the host has not yet taken is not. */
    twostate predicate IcrWritten(value: Bits)
      reads this
    {
      && regs[ICR] == Merge(old(regs)[ICR], value, Byte(WriteMask(ICR)))
      && (forall i :: 0 <= i < IO_REGISTER_COUNT && i != ICR && !Stops(i) ==> regs[i] == old(regs)[i])
      && (if regs[ICR].b5 then
            && csioRxShift.None? && csioCycles == 0 && !csioClocked
            && StoppedAsci(old(Here()), Here(), 0) && StoppedAsci(old(Here()), Here(), 1)
            && regs[CNTR] == old(regs)[CNTR].(b7 := false, b5 := false, b4 := false)
          else
            && regs == old(regs)[ICR := regs[ICR]] && tx == old(tx) && rx == old(rx)
            && Csio() == old(Csio()))
    }

    method AcceptIcr(value: Bits)
      requires Valid()
      modifies `tx, `rx, `outgoing, `incoming, `csioRxShift, `csioCycles, `csioClocked, `irqPending, `regs
      ensures Valid() && IcrWritten(value)
      ensures regs[ICR] == Merge(old(regs)[ICR], value, Byte(WriteMask(ICR)))
      ensures outgoing == if !regs[ICR].b5 then old(outgoing)
                          else Two(TransmitterDropped(old(outgoing).first, old(tx).first),
                                   TransmitterDropped(old(outgoing).second, old(tx).second))
      ensures incoming == if !regs[ICR].b5 then old(incoming)
                          else Two(ReceptionDropped(old(incoming).first, old(rx).first, true),
                                   ReceptionDropped(old(incoming).second, old(rx).second, true))
    {
      hide State.Ok, LineSetupAt, WiringAt, ChannelsAt, TransmitterDropped, ReceptionDropped;
      hide Merge, Byte, WriteMask, StoppedAsci;
      ghost var f := Here();
      StoreIcr(value);
      if regs[ICR].b5 {
        ghost var g := Here();
        StopUnits();
        StoppedAsciFrom(f, g, Here());
      }
    }

    method WriteIcr(value: Bits)
      requires Valid()
      modifies `tx, `rx, `outgoing, `incoming, `csioRxShift, `csioCycles, `csioClocked, `irqPending, `regs
      ensures Valid() && IcrWritten(value)
      ensures regs[ICR] == Merge(old(regs)[ICR], value, Byte(WriteMask(ICR)))
      ensures outgoing == if !regs[ICR].b5 then old(outgoing)
                          else Two(TransmitterDropped(old(outgoing).first, old(tx).first),
                                   TransmitterDropped(old(outgoing).second, old(tx).second))
      ensures incoming == if !regs[ICR].b5 then old(incoming)
                          else Two(ReceptionDropped(old(incoming).first, old(rx).first, true),
                                   ReceptionDropped(old(incoming).second, old(rx).second, true))
      ensures IcrDid(old(Here()), value, Here())
    {
      hide Valid, LineSetupAt, WiringAt, ChannelsAt, TransmitterDropped, ReceptionDropped, Merge, Byte, WriteMask;
      hide StoppedAsci, IcrDid;
      ghost var f := Here();
      AcceptIcr(value);
      IcrIs(f, value, Here());
    }

    // ----------------------------------------------------------------------- the whole register file

    /** A rising edge of NMI stops the DMA channels. */
    method SetNmi(level: bool)
      requires Valid()
      modifies `nmiLevel, `nmiPending, `regs
      ensures Valid() && nmiLevel == level
      ensures var rises := level && !old(nmiLevel);
              && nmiPending == (old(nmiPending) || rises)
              && regs == if rises then old(regs)[DSTAT := old(regs)[DSTAT].(b0 := false)] else old(regs)
    {
      hide State.Ok, LineSetupAt, WiringAt, ChannelsAt;
      ghost var s := Now();
      if level && !nmiLevel {
        nmiPending := true;
        regs := regs[DSTAT := regs[DSTAT].(b0 := false)];
      }
      nmiLevel := level;
      Alike(variant, old(regs), regs, tx, rx, incoming, rdrOverwritten, cts, dcdIrqPending);
      MainEnableStep(s, Now());
    }

    /** Every register takes its reset value, but for the serial data and the DMA addresses and counts. */
    method ResetRegisters()
      modifies `regs
      ensures AfterReset(variant, old(regs), regs)
    {
      hide Byte, ResetByte;
      var kept := regs;
      for index := 0 to IO_REGISTER_COUNT
        modifies `regs
        invariant forall i :: 0 <= i < index ==> regs[i] == ResetByte(variant, i)
      {
        regs := regs[index := ResetByte(variant, index)];
      }
      for index := 0 to IO_REGISTER_COUNT
        modifies `regs
        invariant forall i :: 0 <= i < index ==>
                    regs[i] == if SurvivesReset(i) then old(regs)[i] else ResetByte(variant, i)
        invariant forall i :: index <= i < IO_REGISTER_COUNT ==> regs[i] == ResetByte(variant, i)
      {
        if SurvivesReset(index) {
          regs := regs[index := kept[index]];
        }
      }
    }

    /** What a reset leaves outside the register file; the ledgers start afresh. */
    ghost predicate SerialReset()
      reads `cts, `dcd, `dcdLatched, `dcdIrqPending, `tx, `rx, `csioRxShift, `csioCycles, `csioClocked
      reads `csioOutput, `outgoing, `incoming, `rdrOverwritten
    {
      && cts == Two(false, false) && !dcd && !dcdLatched && !dcdIrqPending
      && tx == Two(NO_TX, NO_TX) && rx == Two(NO_RX, NO_RX)
      && csioRxShift == None && csioCycles == 0 && !csioClocked && csioOutput == []
      && outgoing == Two(EMPTY, EMPTY) && incoming == Two(EMPTY, EMPTY)
      && rdrOverwritten == Two(false, false)
    }

    ghost predicate LatchesReset()
      reads `nmiLevel, `nmiPending, `frcRemainder, `prtRemainder, `highLatchValid, `clearArmed
    {
      && !nmiLevel && !nmiPending && frcRemainder == 0 && prtRemainder == 0
      && highLatchValid == Two(false, false) && clearArmed == Two(false, false)
    }

    lemma ResetAgrees(before: RegFile)
      requires AfterReset(variant, before, regs) && SerialReset() && irqPending == ZERO
      ensures Now().Ok()
    {
      hide State.Ok, ChannelsAt, WiringAt, AfterReset;
      ResetIsOk(variant, before, regs, tx, rx, outgoing, incoming, rdrOverwritten, cts, irqPending);
    }

    /** `reset`, as far as it concerns the devices. */
    method Reset()
      requires mmuPages.Length == 16
      modifies this, mmuPages
      ensures Valid() && irqPending == ZERO && cycleCount == old(cycleCount)
      ensures AfterReset(variant, old(regs), regs) && SerialReset() && LatchesReset()
      ensures ResetTells(variant, old(regs), regs)
    {
      hide State.Ok, LineSetupAt, WiringAt, ChannelsAt, AfterReset, PageBase, SerialReset, LatchesReset;
      hide ResetTells;
      ResetRegisters();
      ResetIs(variant, old(regs), regs);
      ResetDevices(old(regs));
    }

    /** What a reset does besides the register file. */
    method ResetDevices(ghost before: RegFile)
      requires mmuPages.Length == 16 && AfterReset(variant, before, regs)
      modifies this, mmuPages
      ensures Valid() && irqPending == ZERO && cycleCount == old(cycleCount) && regs == old(regs)
      ensures SerialReset() && LatchesReset()
    {
      hide State.Ok, LineSetupAt, WiringAt, ChannelsAt, AfterReset, PageBase, SerialReset, LatchesReset;
      RecomputeMmuPages();
      ResetLatches();
      ResetSerial();
      ResetAgrees(before);
    }

    method ResetLatches()
      modifies `nmiLevel, `nmiPending, `irqPending, `frcRemainder, `prtRemainder, `highLatch, `highLatchValid
      modifies `clearArmed
      ensures LatchesReset() && irqPending == ZERO
    {
      nmiLevel, nmiPending, irqPending := false, false, ZERO;
      frcRemainder, prtRemainder := 0, 0;
      highLatch, highLatchValid, clearArmed := Two(ZERO, ZERO), Two(false, false), Two(false, false);
    }

    method ResetSerial()
      modifies `cts, `dcd, `dcdLatched, `dcdIrqPending, `tx, `rx, `csioRxShift, `csioCycles, `csioClocked
      modifies `csioOutput, `outgoing, `incoming, `rdrOverwritten
      ensures SerialReset()
    {
      cts, dcd, dcdLatched, dcdIrqPending := Two(false, false), false, false, false;
      tx, rx := Two(NO_TX, NO_TX), Two(NO_RX, NO_RX);
      csioRxShift, csioCycles, csioClocked, csioOutput := None, 0, false, [];
      outgoing, incoming, rdrOverwritten := Two(EMPTY, EMPTY), Two(EMPTY, EMPTY), Two(false, false);
    }

    constructor (variant: Variant)
      ensures Valid() && SerialReset() && LatchesReset() && irqPending == ZERO && cycleCount == 0
      ensures this.variant == variant && fresh(mmuPages)
      ensures forall i :: 0 <= i < IO_REGISTER_COUNT ==> regs[i] == ResetByte(variant, i)
      ensures ResetTells(variant, regs, regs)
    {
      hide State.Ok, LineSetupAt, WiringAt, ChannelsAt, ResetByte, PageBase, SerialReset, LatchesReset;
      hide ResetTells;
      this.variant := variant;
      regs := seq(IO_REGISTER_COUNT, i requires 0 <= i < IO_REGISTER_COUNT => ResetByte(variant, i));
      mmuPages := new nat[16];
      cycleCount := 0;
      new;
      ResetIs(variant, regs, regs);
      ResetDevices(regs);
    }

    /** `io_reg_peek`: what a read shows, without its effects. */
    function IoRegPeek(index: nat): Bits
      reads `regs, `tx, `cts, `dcdLatched
    {
      if !Available(variant, index) then ZERO
      else
        match ReadEffectOf(index)
        case AsciCntlb => AsciCntlbValue(index - CNTLB0)
        case AsciStat => AsciStatusValue(index - STAT0)
        case _ => Merge(ZERO, regs[index], Byte(ReadMask(index)))
    }

    /** A received byte that is read departs. */
    twostate predicate Took(index: nat)
      reads `rx, `incoming
    {
      forall ch: Ch :: incoming.Of(ch) == if index == RDR0 + ch && old(rx).Of(ch).fifo != []
                                          then old(incoming).Of(ch).Depart(old(rx).Of(ch).fifo[0])
                                          else old(incoming).Of(ch)
    }

    /** What a read answers, before it has its effect: what a peek shows, but for a latched counter byte. */
    function Answer(index: nat): Bits
      requires index < IO_REGISTER_COUNT
      reads `regs, `tx, `cts, `dcdLatched, `highLatch, `highLatchValid
    {
      if ReadEffectOf(index) != TmdrHigh then IoRegPeek(index)
      else if highLatchValid.Of(TimerOf(index)) then highLatch.Of(TimerOf(index))
      else regs[index]
    }

    /** The registers whose reading has an effect on them are shown whole. */
    lemma PeekIs(index: nat)
      requires index < IO_REGISTER_COUNT
      requires ReadEffectOf(index) in {AsciRdr, CsioTrd, TmdrLow, TmdrHigh} || index == TCR
      ensures IoRegPeek(index) == regs[index]
    {
      WholeByte(regs[index], index);
    }

    method ReadStatRegister(index: nat) returns (value: Bits)
      requires Valid() && (index == STAT0 || index == STAT1)
      modifies `irqPending, `dcdLatched, `dcdIrqPending
      ensures Valid() && Gives(old(Here()), index, value) && ReadLeft(old(Here()), index, Here())
    {
      hide Valid, LineSetupAt, WiringAt, ChannelsAt, ReadEffectOf, IoRegPeek, Gives;
      SerialEffects(index);
      AnswerIs(index);
      value := IoRegPeek(index);
      var shown := ReadStat(index - STAT0);
    }

    method ReadRdrRegister(index: nat) returns (value: Bits)
      requires Valid() && RDR0 <= index < RDR0 + 2
      modifies `regs, `irqPending, `rx, `incoming
      ensures Valid() && Gives(old(Here()), index, value) && ReadLeft(old(Here()), index, Here()) && Took(index)
      ensures var ch := index - RDR0;
              old(rx).Of(ch).fifo != [] && !rdrOverwritten.Of(ch) ==> value == old(rx).Of(ch).fifo[0]
    {
      hide Valid, LineSetupAt, WiringAt, ChannelsAt, ChannelView.Taken, ReadEffectOf, IoRegPeek, RdrLeft, Shown;
      hide SameAsci, Two.Of, Gives, Ledger.Depart;
      var ch: Ch := index - RDR0;
      ghost var f, v, other := Here(), Channels().Of(ch), Channels().Of(1 - ch);
      SerialEffects(index);
      PeekIs(index);
      AnswerIs(index);
      ShownIs(ch);
      ShownIs(1 - ch);
      value := ReadRdr(ch);
      ShownIs(ch);
      ShownIs(1 - ch);
      OtherIs(f, Here(), 1 - ch, other, Channels().Of(1 - ch));
      RdrIs(f, ch, Here(), v, Channels().Of(ch));
    }

    method ReadTrdRegister() returns (value: Bits)
      requires Valid()
      modifies `regs, `irqPending
      ensures Valid() && Gives(old(Here()), TRD, value) && ReadLeft(old(Here()), TRD, Here())
    {
      hide Valid, LineSetupAt, WiringAt, ChannelsAt, ReadEffectOf, IoRegPeek, Gives;
      SerialEffects(TRD);
      PeekIs(TRD);
      AnswerIs(TRD);
      value := ReadTrd();
    }

    method ReadCounter(index: nat) returns (value: Bits)
      requires Valid() && IsTimer(index) && index != TCR
      modifies `regs, `irqPending, `highLatch, `highLatchValid, `clearArmed
      ensures Valid() && Gives(old(Here()), index, value) && ReadLeft(old(Here()), index, Here())
    {
      hide Valid, LineSetupAt, WiringAt, ChannelsAt, ReadEffectOf, IoRegPeek, Gives, FlagCleared, Two.With;
      hide TmdrLeft, TimerRead;
      TimerEffects(index);
      PeekIs(index);
      AnswerIs(index);
      value := ReadTmdr(index);
    }

    method ReadTimerRegister(index: nat) returns (value: Bits)
      requires Valid() && IsTimer(index)
      modifies `regs, `irqPending, `highLatch, `highLatchValid, `clearArmed
      ensures Valid() && Gives(old(Here()), index, value) && ReadLeft(old(Here()), index, Here())
    {
      hide Valid, LineSetupAt, WiringAt, ChannelsAt, ReadEffectOf, IoRegPeek, Gives, TmdrLeft;
      if index == TCR {
        TimerEffects(index);
        PeekIs(index);
        AnswerIs(index);
        value := ReadTcr();
      } else {
        value := ReadCounter(index);
      }
    }

    /** The guest reads an internal register. A received byte is the oldest one, unless the guest has written
        over it. */
    method ReadInternalIo(index: nat) returns (value: Bits)
      requires Valid() && index < IO_REGISTER_COUNT
      modifies `regs, `irqPending, `highLatch, `highLatchValid, `clearArmed, `dcdLatched, `dcdIrqPending
      modifies `rx, `incoming
      ensures Valid() && MaskTells(Here())
      ensures Gives(old(Here()), index, value) && ReadLeft(old(Here()), index, Here()) && Took(index)
      ensures index == RDR0 || index == RDR0 + 1 ==>
                var ch := index - RDR0;
                old(rx).Of(ch).fifo != [] && !rdrOverwritten.Of(ch) ==> value == old(rx).Of(ch).fifo[0]
    {
      hide Valid, LineSetupAt, WiringAt, ChannelsAt, Gives, ReadLeft, MaskTells, Answer;
      match ReadEffectOf(index) {
        case AsciCntlb => value := ReadQuietly(index);
        case Plain => value := ReadQuietly(index);
        case AsciStat => value := ReadStatRegister(index);
        case AsciRdr => value := ReadRdrRegister(index);
        case CsioTrd => value := ReadTrdRegister();
        case ReadTcr => value := ReadTimerRegister(index);
        case TmdrLow => value := ReadTimerRegister(index);
        case TmdrHigh => value := ReadTimerRegister(index);
      }
      MaskIsRight();
    }

    method ReadQuietly(index: nat) returns (value: Bits)
      requires Valid() && index < IO_REGISTER_COUNT && ReadEffectOf(index) in {AsciCntlb, Plain}
      ensures Gives(Here(), index, value) && ReadLeft(Here(), index, Here())
    {
      hide Valid, Gives;
      AnswerIs(index);
      value := IoRegPeek(index);
    }

    lemma AnswerIs(index: nat)
      requires index < IO_REGISTER_COUNT
      ensures Gives(Here(), index, Answer(index))
    {
      hide Merge, Byte, ReadMask, Readable;
      PresentIs(variant, index);
      if Available(variant, index) {
        ReadableIs(index, regs[index]);
      }
      PeekWhole(index);
    }

    lemma PeekWhole(index: nat)
      requires index < IO_REGISTER_COUNT
      ensures ReadEffectOf(index) == TmdrHigh ==> Readable(index, regs[index], regs[index])
    {
    }

    /** What writing `value` to register `index` does to the bytes on their way out of channel `ch`: TDR takes
        one more, a transmitter that is turned off drops its shifter, and IOSTOP drops TDR and shifter. */
    ghost function OutgoingAfter(index: nat, value: Bits, ch: Ch): Ledger
      reads `regs, `tx, `outgoing
    {
      var l, t := outgoing.Of(ch), tx.Of(ch);
      if index == TDR0 + ch then TdrFilled(l, t, value, regs[ICR].b5)
      else if index == CNTLA0 + ch && regs[CNTLA0 + ch].b5 && !ControlByte(value, regs[ICR].b5).b5 then
        ShifterDropped(l, t)
      else if index == ICR && value.b5 then TransmitterDropped(l, t)
      else l
    }

    /** What it does to the bytes on their way in: a receiver that is turned off drops its shifter; a latched
        carrier loss that takes effect and IOSTOP drop shifter and FIFO. */
    ghost function IncomingAfter(index: nat, value: Bits, ch: Ch): Ledger
      reads `regs, `rx, `dcdLatched, `incoming
    {
      var l, r := incoming.Of(ch), rx.Of(ch);
      if index == CNTLA0 + ch && regs[CNTLA0 + ch].b6 && !ControlByte(value, regs[ICR].b5).b6 then
        ReceptionDropped(l, r, false)
      else if index == ASEXT0 && ch == 0 && dcdLatched && !(variant == Z8S180 && value.b6) then
        ReceptionDropped(l, r, true)
      else if index == ICR && value.b5 then ReceptionDropped(l, r, true)
      else l
    }

    /** The bytes on their way are what the write makes of them. */
    twostate predicate Wrote(index: nat, value: Bits)
      reads `outgoing, `incoming
    {
      forall ch: Ch ::
        && outgoing.Of(ch) == old(OutgoingAfter(index, value, ch))
        && incoming.Of(ch) == old(IncomingAfter(index, value, ch))
    }

    /** On the Z80180 the guest may write over a received byte; time makes up for that. */
    twostate predicate Overwrote(index: nat)
      reads `rdrOverwritten
    {
      rdrOverwritten == if RDR0 <= index < RDR0 + 2
                        then old(rdrOverwritten).With(index - RDR0, old(rdrOverwritten).Of(index - RDR0)
                                                                    || variant == Z80180)
                        else old(rdrOverwritten)
    }

    method WriteTdrRegister(index: nat, value: Bits)
      requires Valid() && TDR0 <= index < TDR0 + 2
      modifies `tx, `outgoing, `irqPending, `regs
      ensures Valid() && Wrote(index, value) && Overwrote(index)
      ensures WriteDid(old(Here()), index, value, Here())
    {
      hide Valid, LineSetupAt, WiringAt, ChannelsAt, Two.Of, Merge, WriteMask, Byte, WriteEffectOf;
      hide ChannelView.Filled, ChannelView.Started, ChannelView.Synced, TdrFilled, TdrDid;
      AsciEffects(index);
      WriteTdr(index - TDR0, value);
    }

    method WriteCntlaRegister(index: nat, value: Bits)
      requires Valid() && index < CNTLA0 + 2
      modifies `tx, `rx, `outgoing, `incoming, `irqPending, `regs
      ensures Valid() && Wrote(index, value) && Overwrote(index)
      ensures WriteDid(old(Here()), index, value, Here())
    {
      hide Valid, LineSetupAt, WiringAt, ChannelsAt, Two.Of, Merge, WriteMask, Byte, WriteEffectOf;
      hide CntlaWritten, ControlByte, ShifterDropped, ReceptionDropped, CntlaDid;
      AsciEffects(index);
      WriteCntla(index - CNTLA0, value);
    }

    method WriteCntlbRegister(index: nat, value: Bits)
      requires Valid() && CNTLB0 <= index < CNTLB0 + 2
      modifies `rx, `irqPending, `regs
      ensures Valid() && Wrote(index, value) && Overwrote(index)
      ensures WriteDid(old(Here()), index, value, Here())
    {
      hide Valid, LineSetupAt, WiringAt, ChannelsAt, Two.Of, Merge, WriteMask, Byte, WriteEffectOf;
      hide ChannelView.Reclocked, CntlbDid;
      AsciEffects(index);
      WriteCntlb(index - CNTLB0, value);
    }

    method WriteStatRegister(index: nat, value: Bits)
      requires Valid() && STAT0 <= index < STAT0 + 2
      modifies `irqPending, `csioRxShift, `csioCycles, `csioClocked, `regs
      ensures Valid() && Wrote(index, value) && Overwrote(index)
      ensures WriteDid(old(Here()), index, value, Here())
    {
      hide Valid, LineSetupAt, WiringAt, ChannelsAt, Two.Of, Merge, WriteMask, Byte, WriteEffectOf;
      hide AbortedReceive, StatDid, StatWritten;
      AsciEffects(index);
      WriteStat(index - STAT0, value);
    }

    method WriteAsextRegister(index: nat, value: Bits)
      requires Valid() && ASEXT0 <= index < ASEXT0 + 2
      modifies `rx, `incoming, `irqPending, `regs
      ensures Valid() && Wrote(index, value) && Overwrote(index)
      ensures WriteDid(old(Here()), index, value, Here())
    {
      hide Valid, LineSetupAt, WiringAt, ChannelsAt, Two.Of, Merge, WriteMask, Byte, WriteEffectOf;
      hide ChannelView.Aborted, ReceptionDropped, AsextDid, AsextWritten;
      AsciEffects(index);
      AsextStops(regs[index], value, index);
      WriteAsext(index - ASEXT0, value);
    }

    method WriteRdrRegister(index: nat, value: Bits)
      requires Valid() && RDR0 <= index < RDR0 + 2
      modifies `regs, `rdrOverwritten
      ensures Valid() && Wrote(index, value) && Overwrote(index)
      ensures WriteDid(old(Here()), index, value, Here())
    {
      hide Valid, LineSetupAt, WiringAt, ChannelsAt, Two.Of, Merge, WriteMask, Byte, WriteEffectOf;
      hide ChannelView.Good, Ledger.Balances;
      AsciEffects(index);
      WriteRdr(index - RDR0, value);
    }

    method WriteAsciRegister(index: nat, value: Bits)
      requires Valid() && (index < RDR0 + 2 || ASEXT0 <= index < ASEXT0 + 2)
      modifies `tx, `rx, `outgoing, `incoming, `csioRxShift, `csioCycles, `csioClocked, `irqPending, `regs
      modifies `rdrOverwritten
      ensures Valid() && Wrote(index, value) && Overwrote(index)
      ensures WriteDid(old(Here()), index, value, Here())
    {
      hide State.Ok, LineSetupAt, WiringAt, ChannelsAt, Wrote, WriteDid, Overwrote;
      match WriteEffectOf(index) {
        case WriteTdr => WriteTdrRegister(index, value);
        case WriteCntla => WriteCntlaRegister(index, value);
        case WriteCntlb => WriteCntlbRegister(index, value);
        case WriteStat => WriteStatRegister(index, value);
        case WriteAsext => WriteAsextRegister(index, value);
        case WriteRdr => WriteRdrRegister(index, value);
        case _ => assert false;
      }
    }

    method WriteIcrRegister(value: Bits)
      requires Valid()
      modifies `tx, `rx, `outgoing, `incoming, `csioRxShift, `csioCycles, `csioClocked, `irqPending, `regs
      ensures Valid() && Wrote(ICR, value) && Overwrote(ICR)
      ensures WriteDid(old(Here()), ICR, value, Here())
    {
      hide Valid, LineSetupAt, WiringAt, ChannelsAt, Merge, WriteMask, Byte, TdrFilled, ShifterDropped, ControlByte;
      hide TransmitterDropped, ReceptionDropped, IcrDid, IcrWritten;
      IcrStops(regs[ICR], value);
      WriteIcr(value);
    }

    /** The registers that no byte of a serial channel passes through. */
    predicate Apart(index: nat) {
      RDR0 + 2 <= index < IO_REGISTER_COUNT && !(ASEXT0 <= index < ASEXT0 + 2) && index != ICR
    }

    method WriteTimerRegister(index: nat, value: Bits)
      requires Valid() && Apart(index) && WriteEffectOf(index) in {WriteEffect.WriteTcr, WriteEffect.WriteTmdr}
      modifies `irqPending, `regs, `highLatchValid
      ensures Valid()
      ensures WriteDid(old(Here()), index, value, Here())
    {
      hide Valid, LineSetupAt, WiringAt, ChannelsAt, Merge, WriteMask, Byte, PlainDid, TmdrDid, TmdrWritten;
      hide MaskTells;
      if index == TCR {
        WriteTcr(value);
      } else {
        WriteTmdr(index, value);
      }
    }

    /** A register that is stored without an effect on a unit. */
    method WritePlain(index: nat, value: Bits)
      requires Valid() && Apart(index) && Available(variant, index)
      requires WriteEffectOf(index) in {WriteEffect.WriteDstat, WriteEffect.WriteItc, WriteEffect.WriteMmu, Store}
      modifies `irqPending, `regs, mmuPages
      ensures Valid()
      ensures PlainDid(old(Here()), index, value, Here())
    {
      hide Valid, LineSetupAt, WiringAt, ChannelsAt, Merge, WriteMask, Byte, PlainByte, PageBase, DstatByte, ItcByte;
      match WriteEffectOf(index) {
        case WriteDstat =>
          DstatIs(regs[index], value);
          WriteDstat(value);
        case WriteItc =>
          ItcIs(regs[index], value);
          StorePlain(index, ItcByte(regs[index], value));
        case WriteMmu =>
          PlainWhole(index, regs[index], value);
          WriteMmu(index, value);
        case Store =>
          PlainIs(index, regs[index], value);
          StorePlain(index, Merge(regs[index], value, Byte(WriteMask(index))));
        case _ => assert false;
      }
    }

    method WriteApart(index: nat, value: Bits)
      requires Valid() && Apart(index) && Available(variant, index)
      modifies `csioRxShift, `csioCycles, `csioClocked, `irqPending, `regs, `highLatchValid, mmuPages
      ensures Valid()
      ensures WriteDid(old(Here()), index, value, Here())
    {
      hide Valid, LineSetupAt, WiringAt, ChannelsAt, PageBase, CntrDid, TrdDid, PlainDid, TmdrDid;
      match WriteEffectOf(index) {
        case WriteCntr => WriteCntr(value);
        case WriteTrd => WriteTrd(value);
        case WriteTcr => WriteTimerRegister(index, value);
        case WriteTmdr => WriteTimerRegister(index, value);
        case WriteDstat => WritePlain(index, value);
        case WriteItc => WritePlain(index, value);
        case WriteMmu => WritePlain(index, value);
        case Store => WritePlain(index, value);
        case _ => assert false;
      }
    }

    method WriteOtherRegister(index: nat, value: Bits)
      requires Valid() && (index == ICR || (Apart(index) && Available(variant, index)))
      modifies `tx, `rx, `outgoing, `incoming, `csioRxShift, `csioCycles, `csioClocked, `irqPending, `regs
      modifies `highLatchValid, mmuPages
      ensures Valid() && Wrote(index, value) && Overwrote(index)
      ensures WriteDid(old(Here()), index, value, Here())
    {
      hide State.Ok, LineSetupAt, WiringAt, ChannelsAt, WriteDid;
      if index == ICR {
        WriteIcrRegister(value);
      } else {
        WriteApart(index, value);
      }
    }

    /** The guest writes an internal register. One that the variant does not have stays as it is. */
    method WriteInternalIo(index: nat, value: Bits)
      requires Valid() && index < IO_REGISTER_COUNT
      modifies `tx, `rx, `outgoing, `incoming, `csioRxShift, `csioCycles, `csioClocked, `irqPending, `regs
      modifies `rdrOverwritten, `highLatchValid, mmuPages
      ensures Valid()
      ensures !Present(variant, index) ==>
                Here() == old(Here()) && outgoing == old(outgoing) && incoming == old(incoming)
      ensures Present(variant, index) ==> Wrote(index, value) && Overwrote(index)
      ensures Present(variant, index) ==> WriteDid(old(Here()), index, value, Here())
      ensures MaskTells(Here())
    {
      hide State.Ok, LineSetupAt, WiringAt, ChannelsAt, Merge, WriteMask, Byte, Wrote, WriteDid, Overwrote, MaskTells;
      hide Present, Available;
      PresentIs(variant, index);
      MaskIsRight();
      if !Available(variant, index) {
        return;
      }
      if index < RDR0 + 2 || ASEXT0 <= index < ASEXT0 + 2 {
        WriteAsciRegister(index, value);
      } else {
        WriteOtherRegister(index, value);
      }
      MaskIsRight();
    }
  }
}
