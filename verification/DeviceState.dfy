/**
 The peripherals as values: what the registers say of them, what must always agree, and what elapsed time
 keeps.
 */
module DeviceState {
  import opened Basics
  import opened DeviceTime
  import opened IoRegisters
  import opened Ledgers
  import opened Registers8
  import opened SerialUnits
  import opened Timers

  type Ch = c: nat | c < 2

  /** One value for each of two channels. */
  datatype Two<T> = Two(first: T, second: T)
  {
    function Of(ch: Ch): T {
      if ch == 0 then first else second
    }

    function With(ch: Ch, value: T): (r: Two<T>)
      ensures r.Of(ch) == value && r.Of(1 - ch) == Of(1 - ch)
    {
      if ch == 0 then this.(first := value) else this.(second := value)
    }
  }

  // ---------------------------------------------------------- what becomes of the bytes of a channel

  /** A byte in the transmit shifter. */
  function Shifting(t: Tx): nat {
    if t.shift.Some? then 1 else 0
  }

  /** A byte written to TDR joins those on their way; one that was still in TDR is lost, and so is the new
      one if the channel is stopped. */
  function TdrFilled(l: Ledger, t: Tx, value: Bits, stopped: bool): Ledger {
    var at := |t.output| + Shifting(t);
    l.Lose(at, if t.tdrFull then 1 else 0).Enter(value).Lose(at, if stopped then 1 else 0)
  }

  /** The byte in the transmit shifter is lost. */
  function ShifterDropped(l: Ledger, t: Tx): Ledger {
    l.Lose(|t.output|, Shifting(t))
  }

  /** The bytes in the transmit shifter and in TDR are lost. */
  function TransmitterDropped(l: Ledger, t: Tx): Ledger {
    l.Lose(|t.output|, Shifting(t) + if t.tdrFull then 1 else 0)
  }

  /** An aborted reception loses the byte in the shifter, and with `clearStatus` those in the FIFO too. */
  function ReceptionDropped(l: Ledger, r: Rx, clearStatus: bool): Ledger {
    var from := if clearStatus then 0 else |r.fifo|;
    l.Lose(from, |r.Stream()| - from)
  }

  /** A byte that completes while the FIFO is full is lost. */
  function Received(l: Ledger, r: Rx, capacity: nat, elapsed: nat): Ledger {
    l.Lose(|r.fifo|, if Overruns(r, capacity, elapsed) then 1 else 0)
  }

  /** The physical base of a logical page, from the three relocation registers. */
  function PageBase(cbr: Bits, bbr: Bits, cbar: Bits, page: nat): nat {
    var bank := if page < Low4(cbar) then 0
                else if page < High4(cbar) then bbr.Value()
                else cbr.Value();
    ((bank + page) % 256) * 4096
  }

  function Low4(b: Bits): nat {
    (if b.b3 then 8 else 0) + b.Low3()
  }

  function High4(b: Bits): nat {
    (if b.b7 then 8 else 0) + (if b.b6 then 4 else 0) + (if b.b5 then 2 else 0) + (if b.b4 then 1 else 0)
  }

  /** `FIFO` depth: four bytes on the Z8S180, one on the Z80180. */
  function Capacity(variant: Variant): nat {
    if variant == Z8S180 then 4 else 1
  }

  /** The registers that a tick of the timers may change. */
  predicate IsTimer(index: nat) {
    index == TCR || index == TMDR0L || index == TMDR0H || index == TMDR1L || index == TMDR1H
  }

  /** The mask of pending requests, from the state of the devices alone. */
  function RequestsOf(tcr: Bits, dstat: Bits, cntr: Bits, l0: Line, l1: Line, w: Wiring): Bits {
    AsciRequests(CsioRequest(DmaRequests(PrtRequests(ZERO, tcr), dstat), cntr), l0, l1, w)
  }

  /** The registers of the serial channels that time may change. */
  predicate ShowsLine(index: nat) {
    STAT0 <= index < STAT0 + 2 || RDR0 <= index < RDR0 + 2
  }

  /** A tick, by the numbers it leaves. */
  lemma TickChannelIs(p: Prt, q: Prt, second: bool)
    requires p.Enabled(second) ==>
               var t := p.Of(second);
               && q.Of(!second) == p.Of(!second)
               && q.Of(second).Count() == (if t.Count() == 0 then t.Reload() else t.Count() - 1)
               && q.Of(second).reloadLow == t.reloadLow && q.Of(second).reloadHigh == t.reloadHigh
               && q.tcr == (if t.Count() != 1 then p.tcr
                            else if second then p.tcr.(b7 := true) else p.tcr.(b6 := true))
    requires !p.Enabled(second) ==> q == p
    ensures q == TickChannel(p, second)
  {
  }

  // ------------------------------------------------------------- what the registers say of the devices

  type RegFile = r: seq<Bits> | |r| == IO_REGISTER_COUNT witness seq(IO_REGISTER_COUNT, _ => ZERO)

  predicate RdrfEnabled(variant: Variant, r: RegFile, ch: Ch)
  {
    variant != Z8S180 || r[ASEXT0 + ch].b7
  }

  predicate CtsHidesTdre(variant: Variant, r: RegFile, cts: Two<bool>, ch: Ch)
  {
    cts.Of(ch) && if ch == 0 then variant != Z8S180 || !r[ASEXT0].b5 else r[STAT1].b2
  }

  /** `asci_frame_cycles`. */
  function FrameAt(variant: Variant, r: RegFile, ch: Ch): Option<nat>
  {
    FrameCycles(variant, r[CNTLA0 + ch], r[CNTLB0 + ch], r[ASEXT0 + ch],
                r[ASTC0L + 2 * ch].Value() + 256 * r[ASTC0H + 2 * ch].Value())
  }

  function LineSetupAt(variant: Variant, r: RegFile, ch: Ch): (s: LineSetup)
    ensures s.capacity == Capacity(variant) && s.tdr == r[TDR0 + ch] && (r[ICR].b5 ==> !s.sends)
  {
    LineSetup(FrameAt(variant, r, ch), !r[ICR].b5 && r[CNTLA0 + ch].b5, r[TDR0 + ch], Capacity(variant))
  }

  function PrtAt(r: RegFile): (p: Prt)
    ensures p.tcr == r[TCR]
  {
    Prt(r[TCR],
        Timer(r[TMDR0L].Value(), r[TMDR0H].Value(), r[RLDR0L].Value(), r[RLDR0H].Value()),
        Timer(r[TMDR1L].Value(), r[TMDR1H].Value(), r[RLDR1L].Value(), r[RLDR1H].Value()))
  }

  function WiringAt(variant: Variant, r: RegFile, cts: Two<bool>, dcdIrq: bool): (w: Wiring)
    ensures w.ioStop == r[ICR].b5
    ensures w.setup0 == LineSetupAt(variant, r, 0) && w.setup1 == LineSetupAt(variant, r, 1)
  {
    Wiring(r[ICR].b5, LineSetupAt(variant, r, 0), LineSetupAt(variant, r, 1), RdrfEnabled(variant, r, 0),
           RdrfEnabled(variant, r, 1), CtsHidesTdre(variant, r, cts, 0), CtsHidesTdre(variant, r, cts, 1),
           dcdIrq)
  }

  /** The registers read for a channel's setup. */
  predicate SetsUp(index: nat, ch: Ch) {
    index in {CNTLA0 + ch, CNTLB0 + ch, TDR0 + ch, ASEXT0 + ch, ASTC0L + 2 * ch, ASTC0H + 2 * ch, ICR}
  }

  /** A channel's setup follows from few registers. */
  lemma SameSetup(variant: Variant, r: RegFile, r': RegFile, ch: Ch)
    requires forall i: nat :: i < IO_REGISTER_COUNT && SetsUp(i, ch) ==> r'[i] == r[i]
    ensures LineSetupAt(variant, r', ch) == LineSetupAt(variant, r, ch)
  {
    assert SetsUp(CNTLA0 + ch, ch) && SetsUp(CNTLB0 + ch, ch) && SetsUp(TDR0 + ch, ch)
           && SetsUp(ASEXT0 + ch, ch) && SetsUp(ASTC0L + 2 * ch, ch) && SetsUp(ASTC0H + 2 * ch, ch)
           && SetsUp(ICR, ch);
  }

  /** The setups follow from what neither time nor a change of status touches. */
  lemma SameSetups(variant: Variant, r: RegFile, r': RegFile)
    requires forall i: nat :: i < IO_REGISTER_COUNT && !Elapses(i) ==> r'[i] == r[i]
    ensures forall ch: Ch :: LineSetupAt(variant, r', ch) == LineSetupAt(variant, r, ch)
  {
    hide LineSetupAt;
    SameSetup(variant, r, r', 0);
    SameSetup(variant, r, r', 1);
  }

  /** Time does not change what decides how the devices advance. */
  lemma TimeKeepsWiring(variant: Variant, r: RegFile, r': RegFile, cts: Two<bool>, dcdIrq: bool)
    requires forall i: nat :: i < IO_REGISTER_COUNT && !Elapses(i) ==> r'[i] == r[i]
    requires r'[STAT1].b2 == r[STAT1].b2
    ensures WiringAt(variant, r', cts, dcdIrq) == WiringAt(variant, r, cts, dcdIrq)
    ensures LineSetupAt(variant, r', 0) == LineSetupAt(variant, r, 0)
    ensures LineSetupAt(variant, r', 1) == LineSetupAt(variant, r, 1)
  {
    SameSetup(variant, r, r', 0);
    SameSetup(variant, r, r', 1);
  }

  /** These registers enable or hide requests. */
  predicate Asks(index: nat) {
    index == ASEXT0 || index == ASEXT0 + 1 || index == STAT1
  }

  lemma SameWiring(variant: Variant, r: RegFile, r': RegFile, cts: Two<bool>, dcdIrq: bool)
    requires forall i: nat :: i < IO_REGISTER_COUNT && Asks(i) ==> r'[i] == r[i]
    ensures SameAsking(WiringAt(variant, r, cts, dcdIrq), WiringAt(variant, r', cts, dcdIrq))
  {
    assert Asks(ASEXT0) && Asks(ASEXT0 + 1) && Asks(STAT1);
  }

  /** The timers follow from their own registers. */
  lemma SamePrt(r: RegFile, r': RegFile)
    requires forall i :: TMDR0L <= i <= RLDR0H || TMDR1L <= i <= RLDR1H || i == TCR ==> r'[i] == r[i]
    ensures PrtAt(r') == PrtAt(r)
  {
  }

  /** The registers that elapsed time may change. */
  predicate Elapses(index: nat) {
    index == FRC || IsTimer(index) || ShowsLine(index) || index == CNTR || index == TRD
  }

  /** A channel with its incoming ledger; `overwritten` if the guest has written to RDR since its last
      byte. */
  datatype ChannelView = ChannelView(line: Line, setup: LineSetup, incoming: Ledger, overwritten: bool)
  {
    /** RDRF and TDRE tell the truth, the FIFO fits, and RDR shows its head unless the guest wrote there. */
    ghost predicate InStep() {
      && (line.stat.b7 <==> line.rx.fifo != [])
      && (line.stat.b1 <==> !line.tx.tdrFull)
      && |line.rx.fifo| <= setup.capacity
      && (line.rx.fifo != [] && !overwritten ==> line.rdr == line.rx.fifo[0])
      && (overwritten ==> setup.capacity == 1)
    }

    /** Besides, the bytes that entered and were not lost have left or are on their way, in order. */
    ghost predicate Good(outgoing: Ledger) {
      && InStep()
      && outgoing.Balances(line.tx.Stream(setup.tdr))
      && incoming.Balances(line.rx.Stream())
    }

    /** The same bytes in the same places. */
    ghost predicate Like(v: ChannelView) {
      && line == v.line && incoming == v.incoming && overwritten == v.overwritten
      && setup.tdr == v.setup.tdr && setup.capacity == v.setup.capacity
    }

    /** The registers say something else of the channel. */
    function Reread(setup': LineSetup, stat: Bits, rdr: Bits): ChannelView {
      this.(setup := setup', line := line.(stat := stat, rdr := rdr))
    }

    /** `start_asci_transmit`. */
    function Started(): ChannelView {
      this.(line := line.(tx := StartTransmit(line.tx, setup)))
    }

    /** `sync_asci_status`. */
    function Synced(): ChannelView {
      this.(line := line.(stat := SyncStat(line.stat, line.tx, line.rx)))
    }

    /** The guest fills TDR; a stopped channel does not keep the byte. */
    function Filled(setup': LineSetup, stopped: bool): ChannelView {
      this.(setup := setup', line := line.(tx := line.tx.(tdrFull := !stopped)))
    }

    /** `abort_asci_receive`. */
    function Aborted(clearStatus: bool): ChannelView {
      this.(line := line.(rx := Rx(None, 0, false, if clearStatus then [] else line.rx.fifo),
                          stat := Cleared(line.stat, clearStatus)),
            incoming := ReceptionDropped(incoming, line.rx, clearStatus)).Synced()
    }

    /** The shifter of the transmitter is dropped. */
    function Halted(): ChannelView {
      this.(line := line.(tx := line.tx.(shift := None, cycles := 0, clocked := false)))
    }

    /** CNTLA has changed. */
    function Configured(setup': LineSetup, clearErrors: bool): ChannelView {
      this.(setup := setup',
            line := line.(stat := if clearErrors then ErrorsCleared(line.stat) else line.stat))
    }

    /** CNTLA has changed: errors are cleared, the receiver or the transmitter is turned off. */
    function Controlled(setup': LineSetup, clearErrors: bool, rxOff: bool, txOff: bool): ChannelView {
      Configured(setup', clearErrors).TurnedOff(rxOff, txOff).Started().Synced()
    }

    function TurnedOff(receiver: bool, transmitter: bool): ChannelView {
      var a := if receiver then Aborted(false) else this;
      if transmitter then a.Halted() else a
    }

    /** CNTLB has changed: an unclocked reception may start to run. */
    function Reclocked(setup': LineSetup): ChannelView {
      var rx := line.rx;
      this.(setup := setup',
            line := line.(rx := if rx.shift.Some? && !rx.clocked && setup'.frame.Some?
                                then rx.(cycles := setup'.frame.value, clocked := true) else rx))
    }

    /** IOSTOP: what is in TDR, in the shifters and in the FIFO is dropped; what went out stays out. */
    function Stopped(setup': LineSetup): ChannelView {
      Emptied(setup').Aborted(true).Synced()
    }

    function Emptied(setup': LineSetup): ChannelView {
      this.(setup := setup', line := line.(tx := Tx(false, None, 0, false, line.tx.output)))
    }

    /** The guest reads RDR: the head of the FIFO departs and the next byte shows. */
    function Taken(): ChannelView {
      if line.rx.fifo == [] then Synced()
      else
        var rest := line.rx.fifo[1..];
        this.(line := line.(rx := line.rx.(fifo := rest), rdr := if rest == [] then line.rdr else rest[0]),
              incoming := incoming.Depart(line.rx.fifo[0])).Synced()
    }

    /** A byte starts to come in. */
    function Heard(b: Bits): ChannelView {
      this.(line := line.(rx := match setup.frame
                                case Some(cycles) => Rx(Some(b), cycles, true, line.rx.fifo)
                                case None => Rx(Some(b), 0, false, line.rx.fifo)),
            incoming := incoming.Enter(b))
    }

    /** The host takes the oldest byte that went out. */
    function Popped(): ChannelView
      requires line.tx.output != []
    {
      this.(line := line.(tx := line.tx.(output := line.tx.output[1..])))
    }
  }

  /** What a write leaves in CNTLA: under IOSTOP neither receiver nor transmitter can be turned on. */
  function ControlByte(value: Bits, ioStop: bool): Bits {
    if ioStop then value.(b6 := false, b5 := false) else value
  }

  function ErrorsCleared(stat: Bits): Bits {
    stat.(b6 := false, b5 := false, b4 := false)
  }

  /** `abort_csio_receive`. */
  function AbortedReceive(c: Csio): Csio {
    c.(cntr := c.cntr.(b5 := false), rxShift := None, cycles := 0, clocked := false)
  }

  /** What a write leaves in CNTR: IOSTOP, both directions at once and the shared CTS1 pin turn enables
      off. */
  function CntrByte(before: Bits, value: Bits, ioStop: bool, ctsShared: bool): Bits {
    var a := Merge(before, value, Byte(WriteMask(CNTR)));
    var b := if ioStop then a.(b7 := false, b5 := false, b4 := false) else a;
    var c := if b.b5 && b.b4 then b.(b5 := false, b4 := false) else b;
    if ctsShared then c.(b5 := false) else c
  }

  lemma CntrIsEither(before: Bits, value: Bits, ioStop: bool, ctsShared: bool)
    ensures var c := CntrByte(before, value, ioStop, ctsShared); !(c.b5 && c.b4)
  {
  }

  /** A transfer starts exactly when sending is turned on; what turns off or on receiving drops what was
      received, and what stops sending stops the clock. */
  function CsioControlled(c: Csio, next: Bits): Csio {
    if !c.cntr.b4 && next.b4 then
      match TransferCycles(next)
      case Some(n) => c.(cntr := next, rxShift := None, cycles := n, clocked := true)
      case None => c.(cntr := next, rxShift := None, cycles := 0, clocked := false)
    else if c.cntr.b5 != next.b5 then c.(cntr := next, rxShift := None, cycles := 0, clocked := false)
    else if c.cntr.b4 && !next.b4 then c.(cntr := next, cycles := 0, clocked := false)
    else c.(cntr := next)
  }

  /** What a write leaves in DSTAT: an enable changes only when its own write bit is low, turning one on
      turns the main enable on, and the main enable cannot be turned off. */
  function DstatByte(before: Bits, value: Bits): Bits {
    var sets1, sets0 := !value.b5, !value.b4;
    Bits(if sets1 then value.b7 else before.b7, if sets0 then value.b6 else before.b6, true, true,
         value.b3, value.b2, false,
         before.b0 || (sets1 && value.b7) || (sets0 && value.b6))
  }

  /** What a write leaves in ITC: TRAP can only be cleared and UFO stays. */
  function ItcByte(before: Bits, value: Bits): Bits {
    Bits(before.b7 && value.b7, before.b6, false, false, false, value.b2, value.b1, value.b0)
  }

  function FlagCleared(tcr: Bits, ch: Ch, armed: bool): Bits {
    if !armed then tcr else if ch == 0 then tcr.(b6 := false) else tcr.(b7 := false)
  }

  /** The registers that IOSTOP changes. */
  predicate Stops(index: nat) {
    CNTLA0 <= index < CNTLA0 + 2 || STAT0 <= index < STAT0 + 2 || index == CNTR
  }

  /** The registers that hold bytes of the channels, or enable and hide their requests. */
  predicate HoldsBytes(index: nat) {
    STAT0 <= index < RDR0 + 2 || ASEXT0 <= index < ASEXT0 + 2
  }

  lemma AsextStops(before: Bits, value: Bits, index: nat)
    requires index == ASEXT0 || index == ASEXT0 + 1
    ensures index == ASEXT0 ==> Merge(before, value, Byte(WriteMask(index))).b6 == value.b6
  {
    assert Byte(0xfd).b6;
  }

  lemma IcrStops(before: Bits, value: Bits)
    ensures Merge(before, value, Byte(WriteMask(ICR))).b5 == value.b5
  {
    assert Byte(0xe0).b5;
  }

  lemma AsciEffects(index: nat)
    requires index < RDR0 + 2 || ASEXT0 <= index < ASEXT0 + 2
    ensures WriteEffectOf(index)
            == if index < CNTLB0 then WriteCntla
               else if index < STAT0 then WriteCntlb
               else if index < TDR0 then WriteStat
               else if index < RDR0 then WriteTdr
               else if index < RDR0 + 2 then WriteRdr
               else WriteAsext
  {
  }

  lemma TimerEffects(index: nat)
    requires IsTimer(index)
    ensures ReadEffectOf(index) == if index == TCR then ReadTcr
                                   else if index == TMDR0H || index == TMDR1H then TmdrHigh else TmdrLow
  {
  }

  lemma SerialEffects(index: nat)
    requires index in {STAT0, STAT1, RDR0, RDR0 + 1, TRD}
    ensures ReadEffectOf(index) == if index == TRD then CsioTrd
                                   else if index < RDR0 then AsciStat else AsciRdr
  {
  }

  /** The registers whose reading has an effect are shown whole. */
  lemma WholeByte(b: Bits, index: nat)
    requires ReadEffectOf(index) in {AsciRdr, CsioTrd, ReadTcr, TmdrLow, TmdrHigh}
    ensures Merge(ZERO, b, Byte(ReadMask(index))) == b
  {
    assert ReadMask(index) == 0xff;
    assert Byte(0xff) == Bits(true, true, true, true, true, true, true, true);
  }

  // -------------------------------------------------------------- the channels, from all that holds them

  function ChannelAt(variant: Variant, r: RegFile, tx: Two<Tx>, rx: Two<Rx>, incoming: Two<Ledger>,
                     overwritten: Two<bool>, ch: Ch): (v: ChannelView)
    ensures v.setup == LineSetupAt(variant, r, ch)
    ensures v.line == Line(tx.Of(ch), rx.Of(ch), r[STAT0 + ch], r[RDR0 + ch])
    ensures v.incoming == incoming.Of(ch) && v.overwritten == overwritten.Of(ch)
  {
    ChannelView(Line(tx.Of(ch), rx.Of(ch), r[STAT0 + ch], r[RDR0 + ch]), LineSetupAt(variant, r, ch),
                incoming.Of(ch), overwritten.Of(ch))
  }

  function ChannelsAt(variant: Variant, r: RegFile, tx: Two<Tx>, rx: Two<Rx>, incoming: Two<Ledger>,
                      overwritten: Two<bool>): (c: Two<ChannelView>)
    ensures c.first.setup == LineSetupAt(variant, r, 0) && c.second.setup == LineSetupAt(variant, r, 1)
    ensures c.second.line.stat == r[STAT1]
  {
    Two(ChannelAt(variant, r, tx, rx, incoming, overwritten, 0),
        ChannelAt(variant, r, tx, rx, incoming, overwritten, 1))
  }

  /** The other registers can change only how fast a channel runs and whether it sends. */
  lemma Alike(variant: Variant, r: RegFile, r': RegFile, tx: Two<Tx>, rx: Two<Rx>, incoming: Two<Ledger>,
              overwritten: Two<bool>, cts: Two<bool>, dcdIrq: bool)
    requires forall i: nat :: i < IO_REGISTER_COUNT && HoldsBytes(i) ==> r'[i] == r[i]
    ensures var c := ChannelsAt(variant, r, tx, rx, incoming, overwritten);
            var c' := ChannelsAt(variant, r', tx, rx, incoming, overwritten);
            c'.first.Like(c.first) && c'.second.Like(c.second)
    ensures SameAsking(WiringAt(variant, r, cts, dcdIrq), WiringAt(variant, r', cts, dcdIrq))
  {
    hide FrameAt;
    SameWiring(variant, r, r', cts, dcdIrq);
  }

  /** What a view shows of a channel. */
  lemma ViewIs(variant: Variant, r: RegFile, tx: Two<Tx>, rx: Two<Rx>, incoming: Two<Ledger>,
               overwritten: Two<bool>, ch: Ch)
    ensures ChannelsAt(variant, r, tx, rx, incoming, overwritten).Of(ch)
            == ChannelView(Line(tx.Of(ch), rx.Of(ch), r[STAT0 + ch], r[RDR0 + ch]),
                           LineSetupAt(variant, r, ch), incoming.Of(ch), overwritten.Of(ch))
  {
  }

  // --------------------------------------------------- what every operation does to a channel is good

  /** A byte written to TDR joins the stream, in the place of one that is still there. */
  lemma FilledIsGood(v: ChannelView, out: Ledger, setup': LineSetup, stopped: bool)
    requires v.Good(out) && setup'.capacity == v.setup.capacity && (stopped ==> !setup'.sends)
    ensures v.Filled(setup', stopped).Started().Synced().Good(
              TdrFilled(out, v.line.tx, setup'.tdr, stopped))
  {
    hide Ledger.Balances, Ledger.Enter, Ledger.Lose;
    var (t, value) := (v.line.tx, setup'.tdr);
    var (f, at) := (t.Stream(v.setup.tdr), |t.output| + Shifting(t));
    var kept := f[..at];
    var n := if t.tdrFull then 1 else 0;
    LoseBalances(out, f, at, n);
    assert Cut(f, at, n) == kept;
    EnterBalances(out.Lose(at, n), kept, value);
    var joined := out.Lose(at, n).Enter(value);
    var m := if stopped then 1 else 0;
    LoseBalances(joined, kept + [value], at, m);
    assert Cut(kept + [value], at, m) == if stopped then kept else kept + [value];
    assert v.Filled(setup', stopped).line.tx.Stream(value) == if stopped then kept else kept + [value];
    StartKeepsStream(v.Filled(setup', stopped).line.tx, setup');
  }

  /** A byte that moves from TDR into the shifter keeps its place. */
  lemma StartKeepsStream(t: Tx, setup: LineSetup)
    ensures StartTransmit(t, setup).Stream(setup.tdr) == t.Stream(setup.tdr)
  {
  }

  /** A write to CNTLA loses only what is in a shifter that it turns off. */
  lemma ControlledIsGood(v: ChannelView, out: Ledger, setup': LineSetup, clearErrors: bool, rxOff: bool,
                         txOff: bool)
    requires v.Good(out) && setup'.capacity == v.setup.capacity && setup'.tdr == v.setup.tdr
    ensures v.Controlled(setup', clearErrors, rxOff, txOff).Good(
              if txOff then ShifterDropped(out, v.line.tx) else out)
  {
    hide Ledger.Balances, Ledger.Lose;
    ReceptionDropsRest(v.incoming, v.line.rx, false);
    ShifterDrops(out, v.line.tx, setup'.tdr);
    var off := v.Configured(setup', clearErrors).TurnedOff(rxOff, txOff);
    StartKeepsStream(off.line.tx, setup');
  }

  lemma ShifterDrops(l: Ledger, t: Tx, tdr: Bits)
    requires l.Balances(t.Stream(tdr))
    ensures ShifterDropped(l, t).Balances(t.(shift := None, cycles := 0, clocked := false).Stream(tdr))
  {
    hide Ledger.Balances, Ledger.Lose;
    LoseBalances(l, t.Stream(tdr), |t.output|, Shifting(t));
    assert Cut(t.Stream(tdr), |t.output|, Shifting(t))
        == t.(shift := None, cycles := 0, clocked := false).Stream(tdr);
  }

  lemma TransmitterDrops(l: Ledger, t: Tx, tdr: Bits)
    requires l.Balances(t.Stream(tdr))
    ensures TransmitterDropped(l, t).Balances(t.output)
  {
    hide Ledger.Balances, Ledger.Lose;
    var n := Shifting(t) + if t.tdrFull then 1 else 0;
    LoseBalances(l, t.Stream(tdr), |t.output|, n);
    assert Cut(t.Stream(tdr), |t.output|, n) == t.output;
  }

  lemma ReceptionDropsRest(l: Ledger, r: Rx, clearStatus: bool)
    requires l.Balances(r.Stream())
    ensures ReceptionDropped(l, r, clearStatus).Balances(
              Rx(None, 0, false, if clearStatus then [] else r.fifo).Stream())
  {
    hide Ledger.Balances, Ledger.Lose;
    var (f, from) := (r.Stream(), if clearStatus then 0 else |r.fifo|);
    LoseBalances(l, f, from, |f| - from);
    assert Cut(f, from, |f| - from) == Rx(None, 0, false, if clearStatus then [] else r.fifo).Stream();
  }

  lemma ReclockedIsGood(v: ChannelView, out: Ledger, setup': LineSetup)
    requires v.Good(out) && setup'.capacity == v.setup.capacity && setup'.tdr == v.setup.tdr
    ensures v.Reclocked(setup').Good(out)
  {
    hide Ledger.Balances;
  }

  /** The guest cannot write RDRF or TDRE. */
  lemma RereadIsGood(v: ChannelView, out: Ledger, value: Bits, ch: Ch)
    requires v.Good(out)
    ensures v.Reread(v.setup, Merge(v.line.stat, value, Byte(WriteMask(STAT0 + ch))), v.line.rdr).Good(out)
  {
    hide Ledger.Balances;
  }

  /** An aborted reception loses what the shifter and the FIFO hold. */
  lemma AbortedIsGood(v: ChannelView, out: Ledger, setup': LineSetup)
    requires v.Good(out) && setup'.capacity == v.setup.capacity && setup'.tdr == v.setup.tdr
    ensures v.(setup := setup').Good(out) && v.(setup := setup').Aborted(true).Good(out)
  {
    hide Ledger.Balances, Ledger.Lose;
    ReceptionDropsRest(v.incoming, v.line.rx, true);
  }

  lemma ControlledIs(v: ChannelView, setup': LineSetup, clearErrors: bool, rxOff: bool, txOff: bool)
    ensures v.Controlled(setup', clearErrors, rxOff, txOff).incoming
            == if rxOff then ReceptionDropped(v.incoming, v.line.rx, false) else v.incoming
  {
  }

  lemma AbortedIs(v: ChannelView, setup': LineSetup)
    ensures v.(setup := setup').Aborted(true).incoming == ReceptionDropped(v.incoming, v.line.rx, true)
  {
  }

  /** IOSTOP loses what was in TDR or in a shifter, and what the guest has not read. */
  lemma StoppedIsGood(v: ChannelView, out: Ledger, setup': LineSetup)
    requires v.Good(out) && setup'.capacity == v.setup.capacity && setup'.tdr == v.setup.tdr
    ensures v.Stopped(setup').Good(TransmitterDropped(out, v.line.tx))
  {
    hide Ledger.Balances, Ledger.Lose;
    ReceptionDropsRest(v.incoming, v.line.rx, true);
    TransmitterDrops(out, v.line.tx, setup'.tdr);
    assert Tx(false, None, 0, false, v.line.tx.output).Stream(setup'.tdr) == v.line.tx.output;
  }

  lemma StoppedIs(v: ChannelView)
    ensures forall setup' ::
              && v.Stopped(setup').line.tx == Tx(false, None, 0, false, v.line.tx.output)
              && v.Stopped(setup').line.rx == Rx(None, 0, false, [])
              && v.Stopped(setup').incoming == ReceptionDropped(v.incoming, v.line.rx, true)
  {
  }

  /** Reading RDR takes the oldest byte and loses none. */
  lemma TakenIsGood(v: ChannelView, out: Ledger)
    requires v.Good(out)
    ensures v.Taken().Good(out)
  {
    hide Ledger.Balances, Ledger.Depart;
    if v.line.rx.fifo != [] {
      DepartBalances(v.incoming, v.line.rx.Stream());
      assert v.line.rx.Stream()[1..] == v.Taken().line.rx.Stream();
    }
  }

  lemma HeardKeeps(v: ChannelView, b: Bits)
    ensures v.Heard(b).line.tx == v.line.tx && v.Heard(b).line.stat == v.line.stat
  {
  }

  /** A byte that starts to come in is the newest on its way. */
  lemma HeardIsGood(v: ChannelView, out: Ledger, b: Bits)
    requires v.Good(out) && v.line.rx.shift.None?
    ensures v.Heard(b).Good(out)
  {
    hide Ledger.Balances, Ledger.Enter;
    EnterBalances(v.incoming, v.line.rx.Stream(), b);
    assert v.Heard(b).line.rx.Stream() == v.line.rx.Stream() + [b];
  }

  /** The host takes the oldest byte that went out and loses none. */
  lemma PoppedIsGood(v: ChannelView, out: Ledger)
    requires v.Good(out) && v.line.tx.output != []
    ensures v.Popped().Good(out.Depart(v.line.tx.output[0]))
  {
    hide Ledger.Balances, Ledger.Depart;
    DepartBalances(out, v.line.tx.Stream(v.setup.tdr));
    assert v.line.tx.Stream(v.setup.tdr)[1..] == v.Popped().line.tx.Stream(v.setup.tdr);
  }

  /** What elapsed cycles outside IOSTOP do to it. */
  ghost function AdvanceChannelView(v: ChannelView, cycles: nat): ChannelView {
    v.(line := AdvanceLine(v.line, v.setup, cycles),
       incoming := Received(v.incoming, v.line.rx, v.setup.capacity, cycles),
       overwritten := v.overwritten && !Shows(v.line.rx, v.setup.capacity, cycles))
  }

  lemma AdvancedKeepsCarrier(v: ChannelView, cycles: nat)
    ensures AdvanceChannelView(v, cycles).line.stat.b2 == v.line.stat.b2
  {
    StatusStays(v.line, v.setup, cycles);
  }

  /** A channel after elapsed cycles; IOSTOP holds it. */
  ghost function ChannelAfter(v: ChannelView, ioStop: bool, cycles: nat): ChannelView {
    if ioStop then v else AdvanceChannelView(v, cycles)
  }

  /** What the registers, the channels and the mask of requests must agree on. */
  datatype State = State(tcr: Bits, dstat: Bits, cntr: Bits, channels: Two<ChannelView>, wiring: Wiring,
                         irq: Bits, outgoing: Two<Ledger>)
  {
    /** The mask of pending requests, from the state of the devices alone. */
    function Requests(): Bits {
      RequestsOf(tcr, dstat, cntr, channels.first.line, channels.second.line, wiring)
    }

    ghost predicate Ok() {
      && irq == Requests()
      && channels.first.Good(outgoing.first) && channels.second.Good(outgoing.second)
      && !(cntr.b5 && cntr.b4)
    }

    /** The channels are as in the other state, but for how fast they run and whether they send. */
    ghost predicate Keeps(other: State) {
      && channels.first.Like(other.channels.first) && channels.second.Like(other.channels.second)
      && outgoing == other.outgoing
    }
  }

  /** A channel asks for an interrupt. */
  predicate Asking(l: Line, w: Wiring, ch: Ch) {
    if ch == 0 then AsciRequest(l.stat, l.tx.tdrFull, w.rdrfEnabled0, w.hidesTdre0, w.dcdIrq)
    else AsciRequest(l.stat, l.tx.tdrFull, w.rdrfEnabled1, w.hidesTdre1, false)
  }

  lemma AskingIs(irq: Bits, l0: Line, l1: Line, w: Wiring)
    ensures AsciRequests(irq, l0, l1, w) == irq.(b5 := Asking(l0, w, 0), b6 := Asking(l1, w, 1))
  {
  }

  /** The two wirings enable and hide the same requests. */
  predicate SameAsking(w: Wiring, w': Wiring) {
    && w.rdrfEnabled0 == w'.rdrfEnabled0 && w.rdrfEnabled1 == w'.rdrfEnabled1
    && w.hidesTdre0 == w'.hidesTdre0 && w.hidesTdre1 == w'.hidesTdre1 && w.dcdIrq == w'.dcdIrq
  }

  /** Nothing the requests or the channels depend on has changed. */
  lemma StoreStep(s: State, s': State)
    requires s.Ok() && s'.Keeps(s) && SameAsking(s.wiring, s'.wiring)
    requires s'.tcr == s.tcr && s'.dstat == s.dstat && s'.cntr == s.cntr && s'.irq == s.irq
    ensures s'.Ok()
  {
  }

  lemma PrtStep(s: State, s': State)
    requires s.Ok() && s'.Keeps(s) && SameAsking(s.wiring, s'.wiring)
    requires s'.dstat == s.dstat && s'.cntr == s.cntr && s'.irq == PrtRequests(s.irq, s'.tcr)
    ensures s'.Ok()
  {
  }

  lemma DmaStep(s: State, s': State)
    requires s.Ok() && s'.Keeps(s) && SameAsking(s.wiring, s'.wiring)
    requires s'.tcr == s.tcr && s'.cntr == s.cntr && s'.irq == DmaRequests(s.irq, s'.dstat)
    ensures s'.Ok()
  {
  }

  lemma CsioStep(s: State, s': State)
    requires s.Ok() && s'.Keeps(s) && SameAsking(s.wiring, s'.wiring)
    requires s'.tcr == s.tcr && s'.dstat == s.dstat && s'.irq == CsioRequest(s.irq, s'.cntr)
    requires !(s'.cntr.b5 && s'.cntr.b4)
    ensures s'.Ok()
  {
  }

  /** One channel has changed and its requests have been recomputed. */
  lemma ChannelStep(s: State, s': State, ch: Ch)
    requires s.Ok() && s'.tcr == s.tcr && s'.dstat == s.dstat
    requires s'.cntr == s.cntr || s'.cntr == s.cntr.(b5 := false)
    requires s'.irq == AsciRequests(s.irq, s'.channels.first.line, s'.channels.second.line, s'.wiring)
    requires s'.channels.Of(1 - ch) == s.channels.Of(1 - ch)
    requires s'.outgoing.Of(1 - ch) == s.outgoing.Of(1 - ch)
    requires s'.channels.Of(ch).Good(s'.outgoing.Of(ch))
    ensures s'.Ok()
  {
  }

  /** Both channels have changed and their requests have been recomputed. */
  lemma ChannelsStep(s: State, s': State)
    requires s.Ok() && s'.tcr == s.tcr && s'.dstat == s.dstat && s'.cntr == s.cntr
    requires s'.irq == AsciRequests(s.irq, s'.channels.first.line, s'.channels.second.line, s'.wiring)
    requires s'.channels.first.Good(s'.outgoing.first) && s'.channels.second.Good(s'.outgoing.second)
    ensures s'.Ok()
  {
    hide ChannelView.Good;
  }

  /** One channel has changed in nothing that its requests depend on. */
  lemma LineStep(s: State, s': State, ch: Ch)
    requires s.Ok() && s'.tcr == s.tcr && s'.dstat == s.dstat && s'.cntr == s.cntr && s'.irq == s.irq
    requires s'.wiring == s.wiring
    requires s'.channels.Of(ch).line.stat == s.channels.Of(ch).line.stat
    requires s'.channels.Of(ch).line.tx.tdrFull == s.channels.Of(ch).line.tx.tdrFull
    requires s'.channels.Of(1 - ch) == s.channels.Of(1 - ch)
    requires s'.outgoing.Of(1 - ch) == s.outgoing.Of(1 - ch)
    requires s'.channels.Of(ch).Good(s'.outgoing.Of(ch))
    ensures s'.Ok()
  {
    hide AsciRequest, ChannelView.Good, PrtRequests, DmaRequests, CsioRequest;
    if ch == 0 {
      SameRequests(s, s');
    } else {
      SameRequests(s, s');
    }
  }

  lemma SameRequests(s: State, s': State)
    requires s'.tcr == s.tcr && s'.dstat == s.dstat && s'.cntr == s.cntr && s'.wiring == s.wiring
    requires s'.channels.first.line.stat == s.channels.first.line.stat
    requires s'.channels.second.line.stat == s.channels.second.line.stat
    requires s'.channels.first.line.tx.tdrFull == s.channels.first.line.tx.tdrFull
    requires s'.channels.second.line.tx.tdrFull == s.channels.second.line.tx.tdrFull
    ensures s'.Requests() == s.Requests()
  {
    hide AsciRequest, PrtRequests, DmaRequests, CsioRequest;
  }

  /** The main enable of the DMA asks for nothing. */
  lemma MainEnableStep(s: State, s': State)
    requires s.Ok() && s'.Keeps(s) && SameAsking(s.wiring, s'.wiring)
    requires s'.dstat == s.dstat || s'.dstat == s.dstat.(b0 := false)
    requires s'.tcr == s.tcr && s'.cntr == s.cntr && s'.irq == s.irq
    ensures s'.Ok()
  {
  }

  const NO_TX := Tx(false, None, 0, false, [])
  const NO_RX := Rx(None, 0, false, [])

  function ResetByte(variant: Variant, index: nat): Bits {
    if Available(variant, index) then Byte(ResetValue(index)) else ZERO
  }

  /** The registers that a reset keeps. */
  predicate SurvivesReset(index: nat) {
    || TDR0 <= index < RDR0 + 2 || index == TRD
    || SAR0L <= index <= IAR1H || BCR1L <= index <= BCR1H
  }

  ghost predicate AfterReset(variant: Variant, before: RegFile, r: RegFile) {
    forall i :: 0 <= i < IO_REGISTER_COUNT ==>
      r[i] == if SurvivesReset(i) then before[i] else ResetByte(variant, i)
  }

  /** After a reset everything agrees. */
  lemma ResetIsOk(variant: Variant, before: RegFile, r: RegFile, tx: Two<Tx>, rx: Two<Rx>,
                  outgoing: Two<Ledger>, incoming: Two<Ledger>, overwritten: Two<bool>, cts: Two<bool>,
                  irq: Bits)
    requires AfterReset(variant, before, r) && irq == ZERO
    requires tx == Two(NO_TX, NO_TX) && rx == Two(NO_RX, NO_RX)
    requires outgoing == Two(EMPTY, EMPTY) && incoming == Two(EMPTY, EMPTY)
    requires overwritten == Two(false, false)
    ensures State(r[TCR], r[DSTAT], r[CNTR], ChannelsAt(variant, r, tx, rx, incoming, overwritten),
                  WiringAt(variant, r, cts, false), irq, outgoing).Ok()
  {
    hide ResetByte, LineSetupAt, WiringAt;
    ResetBytes(variant);
    ViewIs(variant, r, tx, rx, incoming, overwritten, 0);
    ViewIs(variant, r, tx, rx, incoming, overwritten, 1);
  }

  /** No device asks for anything after a reset. */
  lemma ResetBytes(variant: Variant)
    ensures var b := ResetByte(variant, TCR); !b.b6 && !b.b7
    ensures var b := ResetByte(variant, DSTAT); !b.b2 && !b.b3
    ensures var b := ResetByte(variant, CNTR); !b.b7 && !b.b5
    ensures var b := ResetByte(variant, STAT0); !b.b7 && b.b1 && !b.b3 && !b.b0
    ensures var b := ResetByte(variant, STAT1); !b.b7 && b.b1 && !b.b3 && !b.b0
  {
    assert ResetByte(variant, STAT0) == Byte(2) && ResetByte(variant, STAT1) == Byte(2);
  }

  lemma OkDirection(s: State)
    requires s.Ok()
    ensures !(s.cntr.b5 && s.cntr.b4)
  {
  }

  lemma OkGood(s: State, ch: Ch)
    requires s.Ok()
    ensures s.channels.Of(ch).Good(s.outgoing.Of(ch))
  {
  }

  /** Time keeps a channel in step: every byte stays in its place or is noted as lost. */
  lemma TimeKeepsChannel(v: ChannelView, outgoing: Ledger, ioStop: bool, cycles: nat)
    requires v.Good(outgoing)
    ensures ChannelAfter(v, ioStop, cycles).Good(outgoing)
  {
    hide Ledger.Balances, Ledger.Lose;
    var (r, c) := (v.line.rx, v.setup.capacity);
    TransmitKeepsStream(v.line.tx, v.setup, cycles);
    ReceiveKeepsStream(v.line, v.setup, cycles);
    if r.Completes(cycles) {
      assert Receive(r, c, cycles).fifo == if |r.fifo| == c then r.fifo else r.fifo + [r.shift.value];
    }
    var n := if Overruns(r, c, cycles) then 1 else 0;
    LoseBalances(v.incoming, r.Stream(), |r.fifo|, n);
    assert Cut(r.Stream(), |r.fifo|, n) == if Overruns(r, c, cycles) then r.fifo else r.Stream();
  }

  /** An overrun sets OVRN and notes one more byte as lost, the one that was in the shifter; without an
      overrun time loses nothing and leaves OVRN alone. */
  lemma OverrunIsNoted(v: ChannelView, outgoing: Ledger, cycles: nat)
    requires v.Good(outgoing)
    ensures var z := AdvanceChannelView(v, cycles);
            if Overruns(v.line.rx, v.setup.capacity, cycles) then
              && z.line.stat.b6
              && exists i: nat ::
                   && i < |v.incoming.entered| && i !in v.incoming.lost
                   && v.incoming.entered[i] == v.line.rx.shift.value
                   && z.incoming == v.incoming.(lost := v.incoming.lost + {i})
            else z.incoming == v.incoming && z.line.stat.b6 == v.line.stat.b6
  {
    var (r, l) := (v.line.rx, v.incoming);
    if Overruns(r, v.setup.capacity, cycles) {
      LoseOne(l, r.Stream(), |r.fifo|);
      var i := l.InFlight(|r.fifo|);
      assert l.entered[i] == (l.departed + r.Stream())[|l.departed| + |r.fifo|];
      assert l.(lost := l.lost + {i}).Lose(|r.fifo|, 0) == l.(lost := l.lost + {i});
    }
  }

  /** The CSI/O never sends and receives at once. */
  lemma TimeKeepsDirection(d: Dev, w: Wiring, cycles: nat)
    requires !(d.csio.cntr.b5 && d.csio.cntr.b4)
    ensures var cntr := Finish(d, w, cycles).csio.cntr; !(cntr.b5 && cntr.b4)
  {
  }

  /** A mask that was up to date is up to date after the families that changed have been recomputed. */
  lemma RequestsKept(irq: Bits, w: Wiring, dstat: Bits, t: bool, tcr: Bits, tcr': Bits, l0: Line, l1: Line,
                     l0': Line, l1': Line, c: bool, cntr: Bits, cntr': Bits)
    requires irq == RequestsOf(tcr, dstat, cntr, l0, l1, w)
    requires !t ==> tcr' == tcr
    requires !c ==> cntr' == cntr
    ensures IrqAfter(irq, w, t, tcr', l0', l1', c, cntr') == RequestsOf(tcr', dstat, cntr', l0', l1', w)
  {
  }

  lemma TimeKeepsRequests(d: Dev, w: Wiring, dstat: Bits, cycles: nat)
    requires d.irq == RequestsOf(d.prt.tcr, dstat, d.csio.cntr, d.line0, d.line1, w)
    ensures var z := Finish(d, w, cycles);
            z.irq == RequestsOf(z.prt.tcr, dstat, z.csio.cntr, z.line0, z.line1, w)
  {
    hide RequestsOf, IrqAfter, FrcAfter, LineAfter;
    var z := Finish(d, w, cycles);
    CsioStands(d.csio, cycles);
    RequestsKept(d.irq, w, dstat, (d.prtRemainder + cycles) / 20 != 0, d.prt.tcr, z.prt.tcr, d.line0,
                 d.line1, z.line0, z.line1, !w.ioStop && CsioEnds(d.csio, cycles), d.csio.cntr,
                 z.csio.cntr);
  }

  function Cleared(stat: Bits, clearStatus: bool): Bits {
    if clearStatus then stat.(b7 := false, b6 := false, b5 := false, b4 := false) else stat
  }
}
