/**
 The block transfers LDI, LDD, LDIR and LDDR (extended.rs, and `try_step` in lib.rs), one step at a time and
 over whole runs.
 */
module BlockTransfer {
  import opened Basics
  import opened Copying
  import opened DeviceEffects
  import opened DeviceState
  import opened DeviceTime
  import opened DmaChannel
  import opened IoRegisters
  import opened Peripherals
  import opened PhysicalMemory
  import opened Registers8
  import SerialUnits

  /** The source's `u16`. */
  type word = x: int | 0 <= x < 0x1_0000

  function Wrap(x: int): word {
    x % 0x1_0000
  }

  /** The registers that a block transfer reads or writes. */
  datatype Cpu = Cpu(pc: word, bc: word, de: word, hl: word, r: byte, f: Bits)

  datatype Opcode = Opcode(down: bool, repeats: bool)
  {
    function Delta(): int {
      if down then -1 else 1
    }
  }

  /** The second byte of an opcode that begins with 0xed. */
  function Decode(opcode: byte): Option<Opcode> {
    match opcode
    case 0xa0 => Some(Opcode(false, false))
    case 0xa8 => Some(Opcode(true, false))
    case 0xb0 => Some(Opcode(false, true))
    case 0xb8 => Some(Opcode(true, true))
    case _ => None
  }

  /** The four opcodes: 0xa0, eight more downwards, sixteen more repeated. */
  lemma DecodesIff(opcode: byte, op: Opcode)
    ensures Decode(opcode) == Some(op)
       <==> opcode == 0xa0 + (if op.down then 8 else 0) + (if op.repeats then 16 else 0)
  {
  }

  /** `n` refresh cycles count in the low seven bits. */
  function Refreshed(r: byte, n: nat): byte {
    128 * (r / 128) + (r % 128 + n) % 128
  }

  /** Sign, zero and carry stay; P/V says whether bytes are left. */
  function BlockFlags(f: Bits, left: bool): Bits {
    Bits(f.b7, f.b6, false, false, false, left, false, f.b0)
  }

  /** How many bytes a repeated transfer moves. */
  function Length(bc: word): (n: nat)
    ensures n > 0
  {
    if bc == 0 then 0x1_0000 else bc
  }

  /** The registers after `n` steps of a transfer, in closed form. */
  function After(c: Cpu, op: Opcode, n: nat): Cpu
    requires 0 < n <= Length(c.bc)
  {
    var left := Wrap(c.bc - n) != 0;
    Cpu(if op.repeats && left then c.pc else Wrap(c.pc + 2), Wrap(c.bc - n), Wrap(c.de + n * op.Delta()),
        Wrap(c.hl + n * op.Delta()), Refreshed(c.r, 2 * n), BlockFlags(c.f, left))
  }

  /** The base cycles of a step that leaves bytes to be moved, or none. */
  function BaseCycles(op: Opcode, left: bool): nat {
    if op.repeats && left then 14 else 12
  }

  /** The levels of the external interrupt lines. */
  datatype Lines = Lines(int0: bool, int1: bool, int2: bool)

  /** Some maskable interrupt is asked for: by a line that ITC enables, or by a device. */
  predicate Asked(itc: Bits, lines: Lines, irq: Bits) {
    || (lines.int0 && itc.b0) || (lines.int1 && itc.b1) || (lines.int2 && itc.b2)
    || irq.b0 || irq.b1 || irq.b2 || irq.b3 || irq.b4 || irq.b5 || irq.b6
  }

  /** The ten sources of maskable interrupts, in their order: three lines that ITC enables, two timers, two DMA
      channels, the CSI/O and two ASCI channels. */
  ghost predicate SourceAsks(itc: Bits, lines: Lines, irq: Bits, source: nat) {
    match source
    case 0 => lines.int0 && itc.Value() % 2 == 1
    case 1 => lines.int1 && itc.Value() / 2 % 2 == 1
    case 2 => lines.int2 && itc.Value() / 4 % 2 == 1
    case 3 => irq.b0
    case 4 => irq.b1
    case 5 => irq.b2
    case 6 => irq.b3
    case 7 => irq.b4
    case 8 => irq.b5
    case 9 => irq.b6
    case _ => false
  }

  lemma LowBits(b: Bits)
    ensures b.Value() % 2 == (if b.b0 then 1 else 0) && b.Value() / 2 % 2 == (if b.b1 then 1 else 0)
    ensures b.Value() / 4 % 2 == (if b.b2 then 1 else 0)
  {
    hide Bits.Value;
    ValueParts(b);
    var v, low := b.Value(), b.Low3();
    assert v == 8 * (v / 8) + low;
    assert v / 4 == 2 * (v / 8) + low / 4 && v / 2 == 4 * (v / 8) + low / 2;
  }

  /** An interrupt is asked for exactly if one of the sources asks. */
  lemma AskedIff(itc: Bits, lines: Lines, irq: Bits)
    ensures Asked(itc, lines, irq) <==> exists k :: 0 <= k < 10 && SourceAsks(itc, lines, irq, k)
  {
    hide Bits.Value;
    LowBits(itc);
    assert SourceAsks(itc, lines, irq, 0) || SourceAsks(itc, lines, irq, 1) || SourceAsks(itc, lines, irq, 2)
        || SourceAsks(itc, lines, irq, 3) || SourceAsks(itc, lines, irq, 4) || SourceAsks(itc, lines, irq, 5)
        || SourceAsks(itc, lines, irq, 6) || SourceAsks(itc, lines, irq, 7) || SourceAsks(itc, lines, irq, 8)
        || SourceAsks(itc, lines, irq, 9) || !Asked(itc, lines, irq);
  }

  /** The physical address of a logical one. */
  function Physical(r: RegFile, logical: word): nat {
    PageBase(r[CBR], r[BBR], r[CBAR], logical / 4096) + logical % 4096
  }

  /** The same from the numbers in CBAR, BBR and CBR. */
  ghost function Mapped(r: RegFile, logical: int): nat {
    var (page, offset) := (logical % 0x1_0000 / 4096, logical % 0x1_0000 % 4096);
    var bank := if page < r[CBAR].Value() % 16 then 0
                else if page < r[CBAR].Value() / 16 then r[BBR].Value()
                else r[CBR].Value();
    4096 * ((bank + page) % 256) + offset
  }

  lemma MappedIs(r: RegFile, x: int)
    ensures Mapped(r, x) == Physical(r, Wrap(x))
  {
    hide Bits.Value;
    ValueParts(r[CBAR]);
  }

  /** `n` bytes from `start` on, upwards or downwards. */
  ghost function MappedEnds(r: RegFile, start: int, down: bool, n: nat): seq<End> {
    seq(n, i requires 0 <= i < n => AtMemory(Mapped(r, if down then start - i else start + i)))
  }

  lemma MappedEndsAre(r: RegFile, start: word, op: Opcode, n: nat)
    ensures MappedEnds(r, start, op.down, n) == Places(r, start, op, n)
  {
    hide Mapped, Physical, Wrap;
    forall i | 0 <= i < n
      ensures MappedEnds(r, start, op.down, n)[i] == Places(r, start, op, n)[i]
    {
      assert i * op.Delta() == if op.down then -i else i;
      MappedIs(r, if op.down then start - i else start + i);
    }
  }

  /** What a whole run leaves in the processor, and what it costs. */
  ghost predicate Ran(c: Cpu, down: bool, r: RegFile, steps: nat, cycles: nat, c': Cpu) {
    var n := if c.bc == 0 then 0x1_0000 else c.bc;
    && steps == n && cycles == 14 * (n - 1) + 12 + n * (4 * (r[DCNTL].Value() / 64))
    && c'.pc == (c.pc + 2) % 0x1_0000 && c'.bc == 0
    && c'.de == (if down then c.de - n else c.de + n) % 0x1_0000
    && c'.hl == (if down then c.hl - n else c.hl + n) % 0x1_0000
    && c'.r / 128 == c.r / 128 && c'.r % 128 == (c.r + 2 * n) % 128
    && c'.f == Bits(c.f.b7, c.f.b6, false, false, false, false, false, c.f.b0)
  }

  /** What one step leaves in the processor, and what it costs. */
  ghost predicate Stepped(c: Cpu, op: Opcode, r: RegFile, cycles: nat, c': Cpu) {
    var goesOn := op.repeats && c.bc != 1;
    && c'.pc == (if goesOn then c.pc else (c.pc + 2) % 0x1_0000) && c'.bc == (c.bc - 1) % 0x1_0000
    && c'.de == (if op.down then c.de - 1 else c.de + 1) % 0x1_0000
    && c'.hl == (if op.down then c.hl - 1 else c.hl + 1) % 0x1_0000
    && c'.r / 128 == c.r / 128 && c'.r % 128 == (c.r + 2) % 128
    && c'.f == Bits(c.f.b7, c.f.b6, false, false, false, c.bc != 1, false, c.f.b0)
    && cycles == (if goesOn then 14 else 12) + 4 * (r[DCNTL].Value() / 64)
  }

  lemma SteppedIs(c: Cpu, op: Opcode, r: RegFile)
    ensures var c' := After(c, op, 1);
            Stepped(c, op, r, BaseCycles(op, c'.bc != 0) + 4 * MemoryWaits(r), c')
  {
    hide Bits.Value;
    var c' := After(c, op, 1);
    ValueParts(r[DCNTL]);
    SevenBits(c'.r, c.r / 128, (c.r % 128 + 2) % 128);
    ModMore(c.r, 2);
  }

  lemma RanIs(c: Cpu, op: Opcode, r: RegFile, c': Cpu)
    requires var n := Length(c.bc);
             c' == Cpu(Wrap(c.pc + 2), 0, Wrap(c.de + n * op.Delta()), Wrap(c.hl + n * op.Delta()),
                       Refreshed(c.r, 2 * n), BlockFlags(c.f, false))
    ensures var n := Length(c.bc); Ran(c, op.down, r, n, 14 * (n - 1) + 12 + n * (4 * MemoryWaits(r)), c')
  {
    hide Bits.Value;
    var n := Length(c.bc);
    ValueParts(r[DCNTL]);
    SevenBits(c'.r, c.r / 128, (c.r % 128 + 2 * n) % 128);
    ModMore(c.r, 2 * n);
  }

  /** Where the guest's access to a logical address goes. */
  function Place(r: RegFile, logical: word): End {
    AtMemory(Physical(r, logical))
  }

  /** The places of `n` bytes from `start` on. */
  function Places(r: RegFile, start: word, op: Opcode, n: nat): (s: seq<End>)
    ensures |s| == n
  {
    seq(n, i requires 0 <= i < n => Place(r, Wrap(start + i * op.Delta())))
  }

  lemma PlacesNext(r: RegFile, start: word, op: Opcode, n: nat)
    ensures Places(r, start, op, n + 1) == Places(r, start, op, n) + [Place(r, Wrap(start + n * op.Delta()))]
  {
  }

  /** The two bytes that the program counter points to, if they are a block transfer, and what fetching them
      leaves. */
  function FetchOpcode(host: HostBus, w: World, r: RegFile, pc: word, unmapped: byte): (Option<Opcode>, World) {
    var (first, w1) := Take(host, w, Place(r, pc), unmapped);
    var (second, w2) := Take(host, w1, Place(r, Wrap(pc + 1)), unmapped);
    (if first == 0xed then Decode(second) else None, w2)
  }

  lemma SevenBits(b: nat, high: nat, low: nat)
    requires b == 128 * high + low && low < 128
    ensures b / 128 == high && b % 128 == low
  {
  }

  lemma ModMore(x: nat, d: nat)
    ensures (x % 128 + d) % 128 == (x + d) % 128
  {
  }

  lemma RefreshMore(r: byte, n: nat)
    ensures Refreshed(Refreshed(r, n), 2) == Refreshed(r, n + 2)
  {
    SevenBits(Refreshed(r, n), r / 128, (r % 128 + n) % 128);
    ModMore(r % 128 + n, 2);
  }

  lemma WrapMore(x: int, d: int)
    ensures Wrap(Wrap(x) + d) == Wrap(x + d)
  {
  }

  lemma WrapIs(x: int, y: word)
    requires x == y || x == y - 0x1_0000 || x == y + 0x1_0000
    ensures Wrap(x) == y
  {
  }

  /** Bytes are left until as many steps have been done as there are bytes. */
  lemma LeftUntil(bc: word, n: nat)
    requires 0 < n <= Length(bc)
    ensures Wrap(bc - n) != 0 <==> n < Length(bc)
  {
    hide Wrap;
    if n == Length(bc) {
      WrapIs(bc - n, 0);
    } else {
      WrapIs(bc - n, Length(bc) - n);
    }
  }

  /** Where the program counter is after `n` steps, and whether bytes are left. */
  lemma RunsOn(c: Cpu, op: Opcode, n: nat)
    requires op.repeats && 0 < n <= Length(c.bc)
    ensures After(c, op, n).pc == c.pc <==> n < Length(c.bc)
    ensures After(c, op, n).bc != 0 <==> n < Length(c.bc)
  {
    hide Wrap, Length, Refreshed, BlockFlags;
    LeftUntil(c.bc, n);
    WrapIs(c.pc + 2, if c.pc < 0xfffe then c.pc + 2 else c.pc - 0xfffe);
  }

  /** One more step of a run that goes on. */
  lemma AfterNext(c: Cpu, op: Opcode, n: nat)
    requires op.repeats && 0 < n < Length(c.bc)
    ensures After(c, op, n).pc == c.pc
    ensures After(After(c, op, n), op, 1) == After(c, op, n + 1)
  {
    hide Wrap, Length, Refreshed, BlockFlags;
    RunsOn(c, op, n);
    assert (n + 1) * op.Delta() == n * op.Delta() + op.Delta();
    WrapMore(c.bc - n, -1);
    WrapMore(c.de + n * op.Delta(), op.Delta());
    WrapMore(c.hl + n * op.Delta(), op.Delta());
    RefreshMore(c.r, 2 * n);
    FlagsTwice(c.f);
  }

  lemma FlagsTwice(f: Bits)
    ensures forall a, b :: BlockFlags(BlockFlags(f, a), b) == BlockFlags(f, b)
  {
  }

  // ---------------------------------------------------------------------------------- the machine

  class Machine {
    const devices: Devices
    const memory: Memory
    const bus: Bus
    const dma: Dma
    var cpu: Cpu
    var iff1: bool
    var eiShadow: bool
    var halted: bool
    var sleeping: bool
    var lines: Lines

    ghost predicate Valid()
      reads devices, devices.mmuPages, memory
    {
      && devices.Valid() && memory.Valid()
      && dma.devices == devices && dma.memory == memory && dma.bus == bus
    }

    /** The processor runs, DMA has nothing to do, and no NMI is pending. */
    predicate Running()
      reads `halted, `sleeping, devices`nmiPending, devices`regs, dma`edgePending, dma`level, dma.devices`regs
    {
      !halted && !sleeping && !devices.nmiPending && dma.Idle()
    }

    /** Nothing comes before the next instruction. */
    predicate Undisturbed()
      reads this, devices`nmiPending, devices`regs, devices`irqPending, dma`edgePending, dma`level
      reads dma.devices`regs
    {
      Running() && !(iff1 && !eiShadow && Asked(devices.regs[ITC], lines, devices.irqPending))
    }

    /** Memory and host. */
    ghost function Now(): World
      requires memory.Valid()
      reads bus`calls, memory
    {
      WorldOf(bus, memory)
    }

    /** What the program counter points to, and memory and host once it has been fetched. */
    ghost function Next(): (Option<Opcode>, World)
      requires memory.Valid()
      reads `cpu, devices`regs, bus`calls, memory
    {
      FetchOpcode(bus.host, Now(), devices.regs, cpu.pc, memory.unmappedRead)
    }

    constructor (devices: Devices, memory: Memory, bus: Bus, cpu: Cpu)
      requires devices.Valid() && memory.Valid()
      ensures Valid() && this.devices == devices && this.memory == memory && this.bus == bus && this.cpu == cpu
      ensures !iff1 && !eiShadow && !halted && !sleeping && lines == Lines(false, false, false)
      ensures fresh(dma) && dma.edgePending == dma.level == Two(false, false)
    {
      hide Devices.Valid, Memory.Valid;
      this.devices, this.memory, this.bus, this.cpu := devices, memory, bus, cpu;
      this.iff1, this.eiShadow, this.halted, this.sleeping := false, false, false, false;
      this.lines := Lines(false, false, false);
      this.dma := new Dma(devices, memory, bus);
    }

    /** `mmu_translate`. */
    method Translate(logical: word) returns (physical: nat)
      requires devices.Valid()
      ensures physical == Physical(devices.regs, logical)
    {
      hide State.Ok, ChannelsAt, WiringAt, Bits.Value;
      physical := devices.mmuPages[logical / 4096] + logical % 4096;
    }

    /** `read_logical`; the wait states it costs are returned. */
    method ReadLogical(logical: word) returns (value: byte, waits: nat)
      requires Valid()
      modifies bus`calls
      ensures (value, Now()) == Take(bus.host, old(Now()), Place(devices.regs, logical), memory.unmappedRead)
      ensures waits == MemoryWaits(devices.regs)
    {
      hide Devices.Valid, Physical, Take;
      waits := MemoryWaits(devices.regs);
      var physical := Translate(logical);
      value := Fetch(bus, memory, physical);
    }

    method WriteLogical(logical: word, value: byte) returns (waits: nat)
      requires Valid()
      modifies bus`calls, memory`ramStores
      ensures Valid() && waits == MemoryWaits(devices.regs)
      ensures Now() == Give(old(Now()), Place(devices.regs, logical), value)
    {
      hide Devices.Valid, Physical, Give;
      waits := MemoryWaits(devices.regs);
      var physical := Translate(logical);
      Put(bus, memory, physical, value);
    }

    /** The handler of the four block transfers. */
    method ExecuteBlock(op: Opcode) returns (iterations: nat, waits: nat)
      requires Valid()
      modifies this`cpu, bus`calls, memory`ramStores
      ensures Valid() && waits == 2 * MemoryWaits(devices.regs)
      ensures var c, r := old(cpu), devices.regs;
              && Now() == Moved(bus.host, old(Now()), Place(r, c.hl), Place(r, c.de), memory.unmappedRead)
              && var left := Wrap(c.bc - 1) != 0;
                 && cpu == c.(hl := Wrap(c.hl + op.Delta()), de := Wrap(c.de + op.Delta()), bc := Wrap(c.bc - 1),
                              f := BlockFlags(c.f, left),
                              pc := if op.repeats && left then Wrap(c.pc - 2) else c.pc)
                 && iterations == (if op.repeats && left then 1 else 0)
    {
      hide Devices.Valid, Take, Give, BlockFlags, MemoryWaits, Place;
      var value, w0 := ReadLogical(cpu.hl);
      var w1 := WriteLogical(cpu.de, value);
      waits := w0 + w1;
      cpu := cpu.(hl := Wrap(cpu.hl + op.Delta()), de := Wrap(cpu.de + op.Delta()));
      var count := Wrap(cpu.bc - 1);
      cpu := cpu.(bc := count, f := BlockFlags(cpu.f, count != 0));
      iterations := 0;
      if op.repeats && count != 0 {
        iterations := 1;
        cpu := cpu.(pc := Wrap(cpu.pc - 2));
      }
    }

    /** The fetch of a block transfer. */
    method FetchBlock() returns (op: Opcode, waits: nat)
      requires Valid() && Next().0.Some?
      modifies bus`calls
      ensures Valid() && (Some(op), Now()) == old(Next()) && waits == 2 * MemoryWaits(devices.regs)
    {
      hide Devices.Valid, Take, Place, MemoryWaits;
      var first, w0 := ReadLogical(cpu.pc);
      var second, w1 := ReadLogical(Wrap(cpu.pc + 1));
      op, waits := Decode(second).value, w0 + w1;
    }

    /** Fetch, execution and cost of a block transfer. */
    method RunInstruction() returns (cycles: nat)
      requires Valid() && Next().0.Some?
      modifies this`cpu, this`eiShadow, bus`calls, memory`ramStores
      ensures Valid() && !eiShadow
      ensures var c, op, r := old(cpu), old(Next()).0.value, devices.regs;
              && cpu == After(c, op, 1)
              && Now() == Moved(bus.host, old(Next()).1, Place(r, c.hl), Place(r, c.de), memory.unmappedRead)
              && cycles == BaseCycles(op, cpu.bc != 0) + 4 * MemoryWaits(r)
    {
      hide Devices.Valid, FetchOpcode, Moved, Place, BlockFlags, Refreshed, MemoryWaits;
      ghost var c := cpu;
      var instructionPc := cpu.pc;
      var op, w0 := FetchBlock();
      cpu := cpu.(pc := Wrap(cpu.pc + 2), r := Refreshed(cpu.r, 2));
      eiShadow := false;
      var iterations, w1 := ExecuteBlock(op);
      StepIs(c, op);
      cycles := Resolve(op, iterations, cpu.pc != instructionPc) + (w0 + w1);
    }

    /** `pending_maskable_source`: the first source that asks. */
    method PendingMaskableSource() returns (source: Option<nat>)
      ensures source.Some? <==> Asked(devices.regs[ITC], lines, devices.irqPending)
      ensures source.Some? ==>
                && source.value < 10 && SourceAsks(devices.regs[ITC], lines, devices.irqPending, source.value)
                && forall k :: 0 <= k < source.value ==> !SourceAsks(devices.regs[ITC], lines, devices.irqPending, k)
    {
      hide Bits.Value;
      var itc, irq := devices.regs[ITC], devices.irqPending;
      LowBits(itc);
      if lines.int0 && itc.b0 {
        source := Some(0);
      } else if lines.int1 && itc.b1 {
        source := Some(1);
      } else if lines.int2 && itc.b2 {
        source := Some(2);
      } else if irq.b0 {
        source := Some(3);
      } else if irq.b1 {
        source := Some(4);
      } else if irq.b2 {
        source := Some(5);
      } else if irq.b3 {
        source := Some(6);
      } else if irq.b4 {
        source := Some(7);
      } else if irq.b5 {
        source := Some(8);
      } else if irq.b6 {
        source := Some(9);
      } else {
        source := None;
      }
    }

    /** `interrupt_check_point`, when no NMI is pending and the CPU does not sleep. */
    method CheckPoint() returns (taken: bool)
      requires !devices.nmiPending && !sleeping
      ensures taken <==> iff1 && !eiShadow && Asked(devices.regs[ITC], lines, devices.irqPending)
    {
      var source := PendingMaskableSource();
      taken := source.Some? && !eiShadow && iff1;
    }

    /** `try_step` at a block transfer. */
    method Step() returns (cycles: nat)
      requires Valid() && Undisturbed() && Next().0.Some?
      modifies this`cpu, this`eiShadow, memory`ramStores, bus`calls, dma`edgePending
      modifies devices`irqPending, devices`frcRemainder, devices`prtRemainder, devices`cycleCount, devices`tx
      modifies devices`rx, devices`incoming, devices`rdrOverwritten, devices`csioRxShift, devices`csioCycles
      modifies devices`csioClocked, devices`csioOutput, devices`regs
      ensures Valid() && Running() && !eiShadow && dma.edgePending == old(dma.edgePending)
      ensures var c, op, r := old(cpu), old(Next()).0.value, old(devices.regs);
              && cpu == After(c, op, 1)
              && Now() == Moved(bus.host, old(Next()).1, Place(r, c.hl), Place(r, c.de), memory.unmappedRead)
              && cycles == BaseCycles(op, cpu.bc != 0) + 4 * MemoryWaits(r)
              && Unmoved(r, devices.regs) && Stepped(c, op, r, cycles, cpu)
      ensures devices.Snapshot() == Finish(old(devices.Snapshot()), old(devices.Wires()), cycles)
      ensures devices.Wires() == old(devices.Wires())
    {
      hide Devices.Valid, Finish, Moved, Place, After, MemoryWaits, FetchOpcode, BaseCycles, Dma.Idle;
      hide Devices.Snapshot, Devices.Wires, Unmoved, Stepped;
      SteppedIs(cpu, Next().0.value, devices.regs);
      SkipDma();
      var taken := CheckPoint();
      assert !taken;
      cycles := RunInstruction();
      ChargeStep(cycles);
    }

    /** `service_dma` when it finds nothing to do. */
    method SkipDma()
      requires Valid() && Running()
      modifies memory`ramStores, bus`calls, dma`edgePending, devices`irqPending, devices`regs
      ensures Valid() && Running() && Now() == old(Now()) && devices.regs == old(devices.regs)
      ensures dma.edgePending == old(dma.edgePending) && devices.irqPending == old(devices.irqPending)
      ensures devices.Snapshot() == old(devices.Snapshot()) && devices.Wires() == old(devices.Wires())
    {
      hide Devices.Valid, ChannelsAt, WiringAt, PrtAt, Bits.Value, Serves0, Serves1;
      hide Copied, Carried, BurstCycles, PortCycles, Does, Outside, InsideWindow;
      var spent := dma.ServiceDma();
    }

    /** `finish_step` leaves alone what decides the next step. */
    method ChargeStep(cycles: nat)
      requires Valid() && Running()
      modifies devices`irqPending, devices`frcRemainder, devices`prtRemainder, devices`cycleCount, devices`tx
      modifies devices`rx, devices`incoming, devices`rdrOverwritten, devices`csioRxShift, devices`csioCycles
      modifies devices`csioClocked, devices`csioOutput, devices`regs
      ensures Valid() && Running() && Unmoved(old(devices.regs), devices.regs)
      ensures devices.Snapshot() == Finish(old(devices.Snapshot()), old(devices.Wires()), cycles)
      ensures devices.Wires() == old(devices.Wires())
    {
      hide Devices.Valid, Finish, ChannelsAt, WiringAt, PrtAt, Bits.Value, ChannelAfter, Serves0, Serves1;
      hide Expired0, Expired1, Elapsed, MaskTells;
      devices.FinishStep(cycles);
      IdleStays(old(devices.regs), devices.regs);
    }

    /** A run that began as `b` says is `steps` steps and `cycles` cycles on its way. */
    ghost predicate OnRun(b: Start, steps: nat, cycles: nat)
      reads this, devices, devices.mmuPages, memory, bus`calls, dma`edgePending, dma`level, dma.devices`regs
    {
      && Valid() && Running() && !eiShadow && iff1 == b.iff1 && lines == b.lines && bus.host == b.host
      && memory.unmappedRead == b.unmapped && Unmoved(b.regs, devices.regs)
      && 0 < steps <= Length(b.cpu.bc) && cpu == After(b.cpu, b.op, steps)
      && Now() == b.AfterBytes(steps)
      && cycles == RunCycles(Length(b.cpu.bc), steps, MemoryWaits(b.regs))
      && devices.Snapshot() == Finish(b.dev, b.wires, cycles) && devices.Wires() == b.wires
    }

    ghost function Begin(): Start
      requires Valid() && Next().0.Some?
      reads this, devices, devices.mmuPages, memory, bus`calls
    {
      Start(cpu, iff1, lines, Next().0.value, devices.regs, bus.host, Now(), memory.unmappedRead,
            devices.Snapshot(), devices.Wires())
    }

    /** The first step of a run. */
    method StepFirst() returns (cycles: nat)
      requires Valid() && Undisturbed() && Next().0.Some? && Begin().op.repeats && Begin().Keeps()
      modifies this`cpu, this`eiShadow, memory`ramStores, bus`calls, dma`edgePending
      modifies devices`irqPending, devices`frcRemainder, devices`prtRemainder, devices`cycleCount, devices`tx
      modifies devices`rx, devices`incoming, devices`rdrOverwritten, devices`csioRxShift, devices`csioCycles
      modifies devices`csioClocked, devices`csioOutput, devices`regs
      ensures OnRun(old(Begin()), 1, cycles)
    {
      hide Devices.Valid, Finish, Place, After, MemoryWaits, Moved, Running, Devices.Snapshot, Devices.Wires;
      hide OrderedCopy, Places, Start.Keeps, FetchOpcode;
      ghost var b := Begin();
      FirstByte(b);
      FetchesItself(b);
      RunsOn(cpu, b.op, 1);
      cycles := Step();
    }

    /** On a run that no interrupt comes between, the next instruction is the same transfer once more. */
    lemma ComesAgain(b: Start, steps: nat, cycles: nat)
      requires OnRun(b, steps, cycles) && steps < Length(b.cpu.bc) && b.op.repeats
      requires b.Readable() && b.Keeps() && !b.Asks(steps)
      ensures Undisturbed() && Next() == (Some(b.op), Now())
      ensures MemoryWaits(devices.regs) == MemoryWaits(b.regs)
      ensures forall x: word :: Place(devices.regs, x) == Place(b.regs, x)
    {
      hide State.Ok, ChannelsAt, WiringAt, Finish, PrtAt, Physical, Bits.Value, After, MemoryWaits;
      hide OrderedCopy, Places, Asked, Load, Local, Spared;
      SameView(b.regs, devices.regs);
      AfterNext(b.cpu, b.op, steps);
      OpcodeStays(b, steps);
    }

    /** One more step. */
    method StepAgain(ghost b: Start, ghost steps: nat, ghost cycles: nat) returns (spent: nat)
      requires OnRun(b, steps, cycles) && steps < Length(b.cpu.bc) && b.op.repeats
      requires b.Readable() && b.Keeps() && !b.Asks(steps)
      modifies this`cpu, this`eiShadow, memory`ramStores, bus`calls, dma`edgePending
      modifies devices`irqPending, devices`frcRemainder, devices`prtRemainder, devices`cycleCount, devices`tx
      modifies devices`rx, devices`incoming, devices`rdrOverwritten, devices`csioRxShift, devices`csioCycles
      modifies devices`csioClocked, devices`csioOutput, devices`regs
      ensures OnRun(b, steps + 1, cycles + spent)
    {
      hide Devices.Valid, Finish, Place, After, MemoryWaits, Moved, Running, Devices.Snapshot, Devices.Wires;
      hide OrderedCopy, Places, Undisturbed, Next, Start.Asks, Start.Keeps, Start.Readable, Start.AfterBytes;
      ComesAgain(b, steps, cycles);
      AfterNext(b.cpu, b.op, steps);
      NextByte(b, steps);
      RunsOn(b.cpu, b.op, steps + 1);
      spent := Step();
      FinishAdds(b.dev, b.wires, cycles, spent);
      CyclesMore(Length(b.cpu.bc), steps, MemoryWaits(b.regs));
    }

    /** LDIR or LDDR, stepped until the program counter leaves it. */
    method Repeat() returns (steps: nat, cycles: nat)
      requires Valid() && Undisturbed()
      requires Next().0.Some? && Begin().op.repeats && Begin().Keeps() && Begin().Quiet()
      modifies this`cpu, this`eiShadow, memory`ramStores, bus`calls, dma`edgePending
      modifies devices`irqPending, devices`frcRemainder, devices`prtRemainder, devices`cycleCount, devices`tx
      modifies devices`rx, devices`incoming, devices`rdrOverwritten, devices`csioRxShift, devices`csioCycles
      modifies devices`csioClocked, devices`csioOutput, devices`regs
      ensures OnRun(old(Begin()), steps, cycles) && steps == Length(old(cpu).bc)
    {
      hide State.Ok, ChannelsAt, WiringAt, Finish, PrtAt, Bits.Value, After, MemoryWaits, Refreshed, BlockFlags;
      hide OnRun, Valid, Undisturbed, Running, Next, Begin, Start.Keeps, Start.Asks, Start.Readable, Length;
      BeginIs();
      ghost var b := Begin();
      IsReadable();
      var start := cpu.pc;
      cycles := StepFirst();
      steps := 1;
      RunGoesOn(b, steps, cycles);
      while cpu.pc == start
        invariant OnRun(b, steps, cycles)
        invariant steps <= Length(b.cpu.bc) && (cpu.pc == start <==> steps < Length(b.cpu.bc))
        decreases Length(b.cpu.bc) - steps
      {
        var spent := StepAgain(b, steps, cycles);
        cycles := cycles + spent;
        steps := steps + 1;
        RunGoesOn(b, steps, cycles);
      }
    }

    /** LDIR or LDDR as a whole: it takes as many steps as there are bytes, copies them in order through the
        memory management unit, and all devices advance by what it cost, unless an interrupt comes between
        two steps. */
    method RunToEnd() returns (steps: nat, cycles: nat)
      requires Valid() && Undisturbed()
      requires Next().0.Some? && Begin().op.repeats && Begin().Keeps() && Begin().Quiet()
      modifies this`cpu, this`eiShadow, memory`ramStores, bus`calls, dma`edgePending
      modifies devices`irqPending, devices`frcRemainder, devices`prtRemainder, devices`cycleCount, devices`tx
      modifies devices`rx, devices`incoming, devices`rdrOverwritten, devices`csioRxShift, devices`csioCycles
      modifies devices`csioClocked, devices`csioOutput, devices`regs
      ensures Valid() && Running() && !eiShadow
      ensures var c, op, r := old(cpu), old(Next()).0.value, old(devices.regs);
              var n := Length(c.bc);
              && steps == n
              && cycles == 14 * (n - 1) + 12 + n * (4 * MemoryWaits(r))
              && cpu == Cpu(Wrap(c.pc + 2), 0, Wrap(c.de + n * op.Delta()), Wrap(c.hl + n * op.Delta()),
                            Refreshed(c.r, 2 * n), BlockFlags(c.f, false))
              && Ran(c, op.down, r, steps, cycles, cpu)
              && Now() == OrderedCopy(bus.host, old(Now()), Places(r, c.hl, op, n), Places(r, c.de, op, n),
                                      memory.unmappedRead)
              && Places(r, c.hl, op, n) == MappedEnds(r, c.hl, op.down, n)
              && Places(r, c.de, op, n) == MappedEnds(r, c.de, op.down, n)
      ensures devices.Snapshot() == Finish(old(devices.Snapshot()), old(devices.Wires()), cycles)
      ensures devices.Wires() == old(devices.Wires())
      ensures Elapsed(old(devices.Here()), cycles, devices.Here()) && MaskTells(devices.Here())
    {
      hide Devices.Valid, Finish, After, MemoryWaits, Refreshed, BlockFlags, Devices.Snapshot, Devices.Wires;
      hide OrderedCopy, Places, OnRun, Start.Keeps, Start.Quiet, FetchOpcode, Ran, MappedEnds, Elapsed, MaskTells;
      hide Devices.Here;
      ghost var b, f := Begin(), devices.Here();
      BeginsWith(f);
      steps, cycles := Repeat();
      RunIsOver(b, steps, cycles);
      RanIs(b.cpu, b.op, b.regs, cpu);
      MappedEndsAre(b.regs, b.cpu.hl, b.op, steps);
      MappedEndsAre(b.regs, b.cpu.de, b.op, steps);
      TimeIsUp(b, f, steps, cycles);
    }

    lemma BeginsWith(f: Fields)
      requires Valid() && Next().0.Some? && f == devices.Here()
      ensures Begin().dev == SnapshotOf(f) && Begin().wires == WiresOf(f) && f.regs == Begin().regs
      ensures |f.rx.first.fifo| <= Capacity(f.variant) && |f.rx.second.fifo| <= Capacity(f.variant)
      ensures f.variant == devices.variant
    {
      hide Devices.Valid, WiringAt, PrtAt;
      devices.SnapshotIs();
      devices.QueuesFit(0);
      devices.QueuesFit(1);
    }

    /** What the time of the run did to the devices. */
    lemma TimeIsUp(b: Start, f: Fields, steps: nat, cycles: nat)
      requires OnRun(b, steps, cycles) && f.variant == devices.variant
      requires b.dev == SnapshotOf(f) && b.wires == WiresOf(f) && f.regs == b.regs
      requires |f.rx.first.fifo| <= Capacity(f.variant) && |f.rx.second.fifo| <= Capacity(f.variant)
      ensures Elapsed(f, cycles, devices.Here()) && MaskTells(devices.Here())
    {
      hide Devices.Valid, Finish, PrtAt, WiringAt, SnapshotOf, WiresOf, After, Elapsed, MaskTells, Start.AfterBytes;
      hide RunCycles, MemoryWaits, Bits.Value;
      devices.SnapshotIs();
      devices.MaskIsRight();
      ElapsedIs(f, cycles, devices.Here());
    }

    lemma BeginIs()
      requires Valid() && Next().0.Some?
      ensures Begin().cpu == cpu && Begin().op == Next().0.value
    {
    }

    lemma IsReadable()
      requires Valid() && Next().0.Some? && Begin().Keeps()
      ensures Begin().Readable()
    {
      hide State.Ok, ChannelsAt, WiringAt, PrtAt, Physical, Places, Load, Spared;
    }

    lemma RunGoesOn(b: Start, steps: nat, cycles: nat)
      requires OnRun(b, steps, cycles) && b.op.repeats
      ensures steps <= Length(b.cpu.bc) && (cpu.pc == b.cpu.pc <==> steps < Length(b.cpu.bc))
    {
      hide State.Ok, ChannelsAt, WiringAt, Finish, PrtAt, Start.AfterBytes, After, MemoryWaits, Bits.Value;
      RunsOn(b.cpu, b.op, steps);
    }

    lemma RunIsOver(b: Start, steps: nat, cycles: nat)
      requires OnRun(b, steps, cycles) && b.op.repeats && steps == Length(b.cpu.bc)
      ensures Valid() && Running() && !eiShadow
      ensures cycles == 14 * (steps - 1) + 12 + steps * (4 * MemoryWaits(b.regs))
      ensures var c, op := b.cpu, b.op;
              cpu == Cpu(Wrap(c.pc + 2), 0, Wrap(c.de + steps * op.Delta()), Wrap(c.hl + steps * op.Delta()),
                         Refreshed(c.r, 2 * steps), BlockFlags(c.f, false))
      ensures Now() == OrderedCopy(b.host, b.world, Places(b.regs, b.cpu.hl, b.op, steps),
                                   Places(b.regs, b.cpu.de, b.op, steps), b.unmapped)
      ensures devices.Snapshot() == Finish(b.dev, b.wires, cycles) && devices.Wires() == b.wires
    {
      hide Devices.Valid, Finish, OrderedCopy, Places, After, MemoryWaits, Devices.Snapshot, Devices.Wires;
      RunEnds(b.cpu, b.op);
    }
  }

  /** How a run began. */
  datatype Start = Start(cpu: Cpu, iff1: bool, lines: Lines, op: Opcode, regs: RegFile, host: HostBus,
                         world: World, unmapped: byte, dev: Dev, wires: Wiring)
  {
    /** Memory and host after `n` bytes. */
    function AfterBytes(n: nat): World {
      OrderedCopy(host, world, Places(regs, cpu.hl, op, n), Places(regs, cpu.de, op, n), unmapped)
    }

    /** The opcode is not left to the host bus, and the run does not change it: its destination does not name
        it, or it is not in RAM. */
    ghost predicate Keeps() {
      var into := Places(regs, cpu.de, op, Length(cpu.bc));
      && Local(world.cells, Physical(regs, cpu.pc)) && Spared(world.cells, Physical(regs, cpu.pc), into)
      && Local(world.cells, Physical(regs, Wrap(cpu.pc + 1)))
      && Spared(world.cells, Physical(regs, Wrap(cpu.pc + 1)), into)
    }

    /** The opcode is there. */
    predicate Readable() {
      && Load(world.cells, Physical(regs, cpu.pc), unmapped) == 0xed
      && Decode(Load(world.cells, Physical(regs, Wrap(cpu.pc + 1)), unmapped)) == Some(op)
    }

    /** After `steps` steps an interrupt is asked for and enabled. */
    predicate Asks(steps: nat) {
      iff1 && Asked(regs[ITC], lines,
                    Finish(dev, wires, RunCycles(Length(cpu.bc), steps, MemoryWaits(regs))).irq)
    }

    /** No interrupt comes between two steps of the run. */
    ghost predicate Quiet() {
      forall k :: 0 < k < Length(cpu.bc) ==> !Asks(k)
    }
  }

  /** The cycles of `steps` steps of a run over `n` bytes. */
  function RunCycles(n: nat, steps: nat, waits: nat): nat {
    14 * steps - (if 0 < steps == n then 2 else 0) + steps * (4 * waits)
  }

  lemma CyclesMore(n: nat, steps: nat, waits: nat)
    requires steps < n
    ensures RunCycles(n, steps + 1, waits)
            == RunCycles(n, steps, waits) + (if steps + 1 == n then 12 else 14) + 4 * waits
  {
    assert (steps + 1) * (4 * waits) == steps * (4 * waits) + 4 * waits;
  }

  /** What the fetch and the handler do to the registers together. */
  lemma StepIs(c: Cpu, op: Opcode)
    ensures var pc, left := Wrap(c.pc + 2), Wrap(c.bc - 1) != 0;
            After(c, op, 1)
            == Cpu(if op.repeats && left then Wrap(pc - 2) else pc, Wrap(c.bc - 1), Wrap(c.de + op.Delta()),
                   Wrap(c.hl + op.Delta()), Refreshed(c.r, 2), BlockFlags(c.f, left))
  {
    hide BlockFlags, Refreshed;
  }

  /** `resolve`: the base cycles, from how often the handler went round and whether it is done. */
  function Resolve(op: Opcode, iterations: nat, completed: bool): nat {
    if !op.repeats then 12
    else if iterations == 0 then 12
    else if completed then 14 * iterations + 12
    else 14 * iterations
  }

  lemma RunEnds(c: Cpu, op: Opcode)
    requires op.repeats
    ensures var n := Length(c.bc);
            After(c, op, n) == Cpu(Wrap(c.pc + 2), 0, Wrap(c.de + n * op.Delta()), Wrap(c.hl + n * op.Delta()),
                                   Refreshed(c.r, 2 * n), BlockFlags(c.f, false))
  {
    hide Wrap, Length, Refreshed, BlockFlags;
    LeftUntil(c.bc, Length(c.bc));
  }

  /** The registers that time leaves alone. */
  ghost predicate Unmoved(r: RegFile, r': RegFile) {
    forall i: nat :: i < IO_REGISTER_COUNT && !Elapses(i) ==> r'[i] == r[i]
  }

  lemma SameView(r: RegFile, r': RegFile)
    requires Unmoved(r, r')
    ensures forall x: word :: Place(r', x) == Place(r, x)
    ensures MemoryWaits(r') == MemoryWaits(r) && r'[ITC] == r[ITC]
  {
  }

  /** Time gives DMA nothing to do. */
  lemma IdleStays(r: RegFile, r': RegFile)
    requires Unmoved(r, r')
    ensures r'[DSTAT] == r[DSTAT]
    ensures forall e, l :: Serves0(r', e, l) == Serves0(r, e, l) && Serves1(r', e, l) == Serves1(r, e, l)
    ensures Expired0(r) == r ==> Expired0(r') == r'
    ensures Expired1(r) == r ==> Expired1(r') == r'
  {
    hide Bits.Value;
    assert r'[BCR0L] == r[BCR0L] && r'[BCR0H] == r[BCR0H] && r'[BCR1L] == r[BCR1L] && r'[BCR1H] == r[BCR1H];
    assert r'[DMODE] == r[DMODE] && r'[DCNTL] == r[DCNTL] && r'[DSTAT] == r[DSTAT];
    var cleared0, cleared1 := r[DSTAT].(b6 := false), r[DSTAT].(b7 := false);
    assert r[DSTAT := cleared0][DSTAT] == cleared0 && r[DSTAT := cleared1][DSTAT] == cleared1;
  }

  lemma FirstByte(b: Start)
    ensures b.AfterBytes(1)
         == Moved(b.host, b.world, Place(b.regs, b.cpu.hl), Place(b.regs, b.cpu.de), b.unmapped)
  {
    hide Place, Moved;
    PlacesNext(b.regs, b.cpu.hl, b.op, 0);
    PlacesNext(b.regs, b.cpu.de, b.op, 0);
    CopyOneMore(b.host, b.world, [], [], Place(b.regs, b.cpu.hl), Place(b.regs, b.cpu.de), b.unmapped);
  }

  /** Fetching an opcode that is not left to the host bus leaves everything as it is. */
  lemma FetchesItself(b: Start)
    requires b.Keeps()
    ensures FetchOpcode(b.host, b.world, b.regs, b.cpu.pc, b.unmapped).1 == b.world
  {
    hide Physical, Places, Spared;
  }

  /** The next byte is where HL and DE point after `n` steps. */
  lemma NextByte(b: Start, n: nat)
    requires 0 < n < Length(b.cpu.bc)
    ensures var c := After(b.cpu, b.op, n);
            b.AfterBytes(n + 1)
            == Moved(b.host, b.AfterBytes(n), Place(b.regs, c.hl), Place(b.regs, c.de), b.unmapped)
  {
    hide Place, Moved, Refreshed, BlockFlags;
    var d := b.op.Delta();
    PlacesNext(b.regs, b.cpu.hl, b.op, n);
    PlacesNext(b.regs, b.cpu.de, b.op, n);
    CopyOneMore(b.host, b.world, Places(b.regs, b.cpu.hl, b.op, n), Places(b.regs, b.cpu.de, b.op, n),
                Place(b.regs, Wrap(b.cpu.hl + n * d)), Place(b.regs, Wrap(b.cpu.de + n * d)), b.unmapped);
  }

  /** After `n` bytes the opcode is still there, and still not left to the host bus. */
  lemma OpcodeStays(b: Start, n: nat)
    requires n <= Length(b.cpu.bc) && b.Keeps() && b.Readable()
    ensures FetchOpcode(b.host, b.AfterBytes(n), b.regs, b.cpu.pc, b.unmapped) == (Some(b.op), b.AfterBytes(n))
  {
    hide Physical, Load, Local, OrderedCopy;
    ByteStays(b, n, Physical(b.regs, b.cpu.pc));
    ByteStays(b, n, Physical(b.regs, Wrap(b.cpu.pc + 1)));
  }

  lemma ByteStays(b: Start, n: nat, a: nat)
    requires n <= Length(b.cpu.bc)
    requires Spared(b.world.cells, a, Places(b.regs, b.cpu.de, b.op, Length(b.cpu.bc)))
    ensures Load(b.AfterBytes(n).cells, a, b.unmapped) == Load(b.world.cells, a, b.unmapped)
    ensures Local(b.AfterBytes(n).cells, a) <==> Local(b.world.cells, a)
  {
    hide Place;
    var all, some := Places(b.regs, b.cpu.de, b.op, Length(b.cpu.bc)), Places(b.regs, b.cpu.de, b.op, n);
    forall i | 0 <= i < n
      ensures some[i] in all
    {
      assert all[i] == some[i];
    }
    SparedStays(b.host, b.world, Places(b.regs, b.cpu.hl, b.op, n), some, b.unmapped, a);
  }

  // ---------------------------------------------------------------------- the whole address space

  /** A run over 65536 bytes goes everywhere. */
  lemma GoesEverywhere(r: RegFile, start: word, op: Opcode, x: word)
    ensures Place(r, x) in Places(r, start, op, 0x1_0000)
  {
    hide Place, Wrap;
    var d := if op.down then start - x else x - start;
    var i: nat := if d < 0 then d + 0x1_0000 else d;
    WrapIs(start + i * op.Delta(), x);
    assert Places(r, start, op, 0x1_0000)[i] == Place(r, x);
  }

  /** So it keeps its opcode exactly if that is in memory of the machine's own that is not RAM. */
  lemma WholeRunKeeps(b: Start)
    requires b.cpu.bc == 0
    ensures b.Keeps() <==>
              forall a :: a == Physical(b.regs, b.cpu.pc) || a == Physical(b.regs, Wrap(b.cpu.pc + 1)) ==>
                Local(b.world.cells, a) && (a < |b.world.cells| ==> !b.world.cells[a].RamCell?)
  {
    hide Physical, Places;
    GoesEverywhere(b.regs, b.cpu.de, b.op, b.cpu.pc);
    GoesEverywhere(b.regs, b.cpu.de, b.op, Wrap(b.cpu.pc + 1));
  }

  /** An LDIR in ROM. */
  const LDIR_ROM: RegionDef := RegionDef(0, 4096, RomRegion([0xed, 0xb0] + seq(4094, _ => 0)))

  /** RAM for the rest of what a reset machine addresses. */
  const RAM_ABOVE: RegionDef := RegionDef(4096, 0xf000, RamRegion)

  /** The registers after a reset. */
  ghost predicate IsReset(variant: SerialUnits.Variant, r: RegFile) {
    forall i :: 0 <= i < IO_REGISTER_COUNT ==> r[i] == ResetByte(variant, i)
  }

  lemma ResetMmu(variant: SerialUnits.Variant, r: RegFile)
    requires IsReset(variant, r)
    ensures r[CBR].Value() == 0 && r[BBR].Value() == 0 && Low4(r[CBAR]) == 0 && High4(r[CBAR]) == 15
  {
    assert r[CBR] == ZERO && r[BBR] == ZERO && r[CBAR] == Registers8.Byte(0xf0);
  }

  /** After a reset the memory management unit translates nothing. */
  lemma ResetMapsToItself(variant: SerialUnits.Variant, r: RegFile, x: word)
    requires IsReset(variant, r)
    ensures Physical(r, x) == x
  {
    hide Low4, High4, Bits.Value, IsReset;
    ResetMmu(variant, r);
  }

  /** After a reset DMA is off, and memory has three wait states. */
  lemma ResetWaits(variant: SerialUnits.Variant, r: RegFile)
    requires IsReset(variant, r)
    ensures !r[DSTAT].b0 && MemoryWaits(r) == 3
  {
    assert r[DSTAT] == Registers8.Byte(0x30) && r[DCNTL] == Registers8.Byte(0xf0);
  }

  /** A machine after a reset, with an LDIR in ROM and RAM above it. */
  method NewMachine(variant: SerialUnits.Variant, host: HostBus, unmapped: byte, cpu: Cpu)
    returns (machine: Machine)
    ensures fresh(machine) && fresh(machine.devices) && fresh(machine.memory) && fresh(machine.bus)
    ensures fresh(machine.dma) && fresh(machine.devices.mmuPages)
    ensures machine.Valid() && machine.cpu == cpu && machine.Running() && !machine.iff1
    ensures IsReset(variant, machine.devices.regs)
    ensures |machine.Now().cells| > 2
    ensures machine.Now().cells[0] == RomCell(0xed) && machine.Now().cells[1] == RomCell(0xb0)
  {
    hide Devices.Valid, Memory.Valid, Devices.SerialReset, ResetByte, Mappable, Configured;
    var memory := ConfigureMemory(unmapped);
    var devices := new Devices(variant);
    var bus := new Bus(host);
    machine := new Machine(devices, memory, bus, cpu);
    ResetWaits(variant, devices.regs);
  }

  method ConfigureMemory(unmapped: byte) returns (memory: Memory)
    ensures fresh(memory) && memory.Valid() && memory.physicalSize == 0x10_0000
    ensures memory.CellAt(0) == RomCell(0xed) && memory.CellAt(1) == RomCell(0xb0)
  {
    hide Memory.Valid;
    var regions := [LDIR_ROM, RAM_ABOVE];
    var configured := Memory.New(20, unmapped, regions);
    memory := configured.value;
    assert regions[..1] == [LDIR_ROM] && !Covers(RAM_ABOVE, 0) && !Covers(RAM_ABOVE, 1);
    assert Configured([LDIR_ROM], 0) == RomCell(0xed) && Configured([LDIR_ROM], 1) == RomCell(0xb0);
    assert Configured(regions, 0) == RomCell(0xed) && Configured(regions, 1) == RomCell(0xb0);
  }

  /** It is about to execute the LDIR, and 65536 bytes will not change it. */
  lemma ReadyToCopy(variant: SerialUnits.Variant, machine: Machine)
    requires machine.Valid() && IsReset(variant, machine.devices.regs) && !machine.iff1
    requires machine.cpu.pc == 0 && machine.cpu.bc == 0
    requires |machine.Now().cells| > 2
    requires machine.Now().cells[0] == RomCell(0xed) && machine.Now().cells[1] == RomCell(0xb0)
    ensures machine.Next() == (Some(Opcode(false, true)), machine.Now())
    ensures machine.Begin().op.repeats && machine.Begin().Keeps() && machine.Begin().Quiet()
  {
    hide Devices.Valid, Memory.Valid, ResetByte, Physical, Places, Spared, Finish;
    ResetMapsToItself(variant, machine.devices.regs, 0);
    ResetMapsToItself(variant, machine.devices.regs, 1);
    WrapIs(1, 1);
    WholeRunKeeps(machine.Begin());
  }

  /** 65536 bytes on, the pointers are where they were. */
  lemma WholeRunReturns(x: word, r: byte)
    ensures Wrap(x + 0x1_0000) == x && Refreshed(r, 2 * 0x1_0000) == r
  {
  }

  /** After a reset an LDIR in ROM with BC = 0 takes 65536 steps. */
  method CopyWholeSpace(variant: SerialUnits.Variant, host: HostBus, unmapped: byte, cpu: Cpu)
    returns (steps: nat, cycles: nat, after: Cpu)
    requires cpu.pc == 0 && cpu.bc == 0
    ensures steps == 0x1_0000 && cycles == 1703934
    ensures after == Cpu(2, 0, cpu.de, cpu.hl, cpu.r, BlockFlags(cpu.f, false))
  {
    hide Devices.Valid, Memory.Valid, Machine.Begin, Start.Keeps, Start.Quiet, IsReset, Finish, BlockFlags;
    hide MemoryWaits, OrderedCopy, Places, Devices.Snapshot, Devices.Wires, FetchOpcode, Wrap, Refreshed, Dma.Idle;
    hide Machine.Now, Ran, MappedEnds, Elapsed, MaskTells, Devices.Here;
    WholeRunReturns(cpu.de, cpu.r);
    WholeRunReturns(cpu.hl, cpu.r);
    WrapIs(2, 2);
    var machine := NewMachine(variant, host, unmapped, cpu);
    ReadyToCopy(variant, machine);
    ResetWaits(variant, machine.devices.regs);
    steps, cycles := machine.RunToEnd();
    after := machine.cpu;
  }

  // ------------------------------------------------------------------------ block moves and fills

  /** No two logical pages share a physical one. */
  ghost predicate OneToOne(r: RegFile) {
    forall p, q :: 0 <= p < q < 16 ==>
      PageBase(r[CBR], r[BBR], r[CBAR], p) != PageBase(r[CBR], r[BBR], r[CBAR], q)
  }

  /** Then no two logical addresses share a physical one. */
  lemma PhysicalOneToOne(r: RegFile, x: word, y: word)
    requires OneToOne(r) && x != y
    ensures Physical(r, x) != Physical(r, y)
  {
    var (p, q) := (x / 4096, y / 4096);
    PageAligned(r, p);
    PageAligned(r, q);
    hide PageBase;
    if p == q {
      assert x % 4096 != y % 4096;
    } else {
      SplitsOnce(PageBase(r[CBR], r[BBR], r[CBAR], p), x % 4096, PageBase(r[CBR], r[BBR], r[CBAR], q), y % 4096);
    }
  }

  lemma PageAligned(r: RegFile, p: nat)
    ensures PageBase(r[CBR], r[BBR], r[CBAR], p) % 4096 == 0
  {
    hide Bits.Value;
  }

  lemma SplitsOnce(a: nat, i: nat, b: nat, j: nat)
    requires a % 4096 == 0 && b % 4096 == 0 && i < 4096 && j < 4096 && a != b
    ensures a + i != b + j
  {
  }

  /** How far DE is ahead of HL, in the direction of the transfer. */
  function Lead(c: Cpu, op: Opcode): word {
    Wrap((c.de - c.hl) * op.Delta())
  }

  lemma SameWrap(x: int, y: int)
    ensures Wrap(x) == Wrap(y) <==> Wrap(x - y) == 0
    ensures Wrap(x) == Wrap(y) <==> Wrap(y - x) == 0
  {
  }

  lemma Complement(x: int, m: nat)
    requires 0 < m < 0x1_0000
    ensures Wrap(m - x) == 0 <==> Wrap(x) == m
    ensures Wrap(m) != 0
  {
  }

  /** Two steps of a run write to different addresses; a step reads what an earlier one wrote exactly when the
      lead of DE is the distance between them. */
  lemma RunMeets(c: Cpu, op: Opcode, j: nat, k: nat)
    requires j < k < 0x1_0000
    ensures Wrap(c.de + j * op.Delta()) != Wrap(c.de + k * op.Delta())
    ensures Wrap(c.hl + k * op.Delta()) == Wrap(c.de + j * op.Delta()) <==> Lead(c, op) == k - j
  {
    hide Wrap;
    var d := op.Delta();
    Complement((c.de - c.hl) * d, k - j);
    SameWrap(c.de + j * d, c.de + k * d);
    SameWrap(c.hl + k * d, c.de + j * d);
    if op.down {
      assert k - j - (c.de - c.hl) * d == c.de + j * d - (c.hl + k * d);
      assert c.de + j * d - (c.de + k * d) == k - j;
    } else {
      assert k - j - (c.de - c.hl) * d == c.hl + k * d - (c.de + j * d);
      assert c.de + k * d - (c.de + j * d) == k - j;
    }
  }

  /** A run whose destination does not begin inside the source that is still to be read is a block move: every
      RAM byte of the destination ends as the source byte was at the start. */
  lemma RunMoves(b: Start, i: nat)
    requires var n := Length(b.cpu.bc); i < n && !(0 < Lead(b.cpu, b.op) < n)
    requires OneToOne(b.regs)
    requires Local(b.world.cells, Physical(b.regs, Wrap(b.cpu.hl + i * b.op.Delta())))
    requires var d := Physical(b.regs, Wrap(b.cpu.de + i * b.op.Delta()));
             d < |b.world.cells| && b.world.cells[d].RamCell?
    ensures b.AfterBytes(Length(b.cpu.bc)).cells[Physical(b.regs, Wrap(b.cpu.de + i * b.op.Delta()))]
         == RamCell(
              Load(b.world.cells, Physical(b.regs, Wrap(b.cpu.hl + i * b.op.Delta())), b.unmapped))
  {
    hide Physical, OneToOne, Wrap, Lead, Load, Local, OrderedCopy;
    var n := Length(b.cpu.bc);
    var from, into := Places(b.regs, b.cpu.hl, b.op, n), Places(b.regs, b.cpu.de, b.op, n);
    forall j, k | 0 <= j < k < n
      ensures into[j] != into[k] && from[k] != into[j]
    {
      RunMeets(b.cpu, b.op, j, k);
      PhysicalOneToOne(b.regs, Wrap(b.cpu.de + j * b.op.Delta()), Wrap(b.cpu.de + k * b.op.Delta()));
      PhysicalOneToOne(b.regs, Wrap(b.cpu.hl + k * b.op.Delta()), Wrap(b.cpu.de + j * b.op.Delta()));
    }
    CopyMoves(b.host, b.world, from, into, b.unmapped, i);
  }

  /** A run that reads what its last step wrote fills its destination with the first byte of its source. */
  lemma RunFills(b: Start, i: nat)
    requires i < Length(b.cpu.bc) && Lead(b.cpu, b.op) == 1 && OneToOne(b.regs)
    requires Local(b.world.cells, Physical(b.regs, b.cpu.hl))
    requires forall k :: 0 <= k < Length(b.cpu.bc) ==>
               var d := Physical(b.regs, Wrap(b.cpu.de + k * b.op.Delta()));
               d < |b.world.cells| && b.world.cells[d].RamCell?
    ensures b.AfterBytes(Length(b.cpu.bc)).cells[Physical(b.regs, Wrap(b.cpu.de + i * b.op.Delta()))]
         == RamCell(Load(b.world.cells, Physical(b.regs, b.cpu.hl), b.unmapped))
  {
    hide Physical, OneToOne, Lead, Load, Local, Wrap, OrderedCopy;
    var n := Length(b.cpu.bc);
    var from, into := Places(b.regs, b.cpu.hl, b.op, n), Places(b.regs, b.cpu.de, b.op, n);
    WrapIs(b.cpu.hl, b.cpu.hl);
    assert from[0] == Place(b.regs, b.cpu.hl);
    forall j, k | 0 <= j < k < n
      ensures into[j] != into[k] && (k == j + 1 ==> from[k] == into[j])
    {
      RunMeets(b.cpu, b.op, j, k);
      PhysicalOneToOne(b.regs, Wrap(b.cpu.de + j * b.op.Delta()), Wrap(b.cpu.de + k * b.op.Delta()));
    }
    CopyFills(b.host, b.world, from, into, b.unmapped, i);
  }
}
