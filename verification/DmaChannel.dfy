/**
 The two channels of the DMA controller (dma.rs), between memories and ports: the bytes they move, the registers
 they leave, what they cost, and that a request mask that was fresh stays fresh.
 */
module DmaChannel {
  import opened Basics
  import opened Copying
  import opened DeviceState
  import opened IoRegisters
  import Machine
  import opened Peripherals
  import PhysicalMemory
  import opened Registers8

  const SPACE: nat := 0x10_0000  // addresses have twenty bits

  datatype Direction = Up | Down | Still

  function Bool(b: bool): nat {
    if b then 1 else 0
  }

  // ------------------------------------------------------------------------------ addresses, as numbers

  /** Where the walk from `a` is after `i` bytes. */
  function At(a: nat, d: Direction, i: nat): (r: nat)
    ensures a < SPACE ==> r < SPACE
  {
    match d
    case Up => (a + i) % SPACE
    case Down => (a - i) % SPACE
    case Still => a
  }

  /** The end of a transfer at address `a`; a port has sixteen bits. */
  function EndOf(port: bool, a: nat): End {
    if port then AtPort(a % 0x1_0000) else AtMemory(a)
  }

  /** The ends of `n` bytes. */
  function Walk(port: bool, a: nat, d: Direction, n: nat): (r: seq<End>)
    ensures |r| == n
  {
    seq(n, i requires 0 <= i < n => EndOf(port, At(a, d, i)))
  }

  /** The move from `a` carries into bit 16. */
  predicate Crosses(a: nat, d: Direction) {
    match d
    case Up => a % 0x1_0000 == 0xffff
    case Down => a % 0x1_0000 == 0
    case Still => false
  }

  /** How many moves of a walk carry into bit 16, in closed form. */
  function Crossings(a: nat, d: Direction, n: nat): nat {
    match d
    case Up => (a % 0x1_0000 + n) / 0x1_0000
    case Down => (0xffff - a % 0x1_0000 + n) / 0x1_0000
    case Still => 0
  }

  lemma AtNext(a: nat, d: Direction, i: nat)
    requires a < SPACE
    ensures At(At(a, d, i), d, 1) == At(a, d, i + 1)
    ensures At(a, d, i) < SPACE && At(a, d, 0) == a
  {
    match d
    case Up => ModSteps(a + i, 1);
    case Down => ModSteps(a - i, -1);
    case Still =>
  }

  lemma ModSteps(x: int, s: int)
    requires s == 1 || s == -1
    ensures (x % SPACE + s) % SPACE == (x + s) % SPACE
  {
  }

  lemma WalkNext(port: bool, a: nat, d: Direction, n: nat)
    ensures Walk(port, a, d, n + 1) == Walk(port, a, d, n) + [EndOf(port, At(a, d, n))]
  {
  }

  /** One more move: the closed form counts it exactly when it crosses. */
  lemma CrossingsNext(a: nat, d: Direction, n: nat)
    ensures Crossings(a, d, n + 1) == Crossings(a, d, n) + Bool(Crosses(At(a, d, n), d))
    ensures Crossings(a, d, 0) == 0
  {
    match d
    case Up =>
      BankOffset(a + n);
      Carry(a, n);
    case Down =>
      BankOffset(a - n);
      Borrow(a, n);
    case Still =>
  }

  /** Twenty-bit wrap-around does not disturb the low sixteen bits. */
  lemma BankOffset(x: int)
    ensures (x % SPACE) % 0x1_0000 == x % 0x1_0000
  {
    var q := x / SPACE;
    assert x == SPACE * q + x % SPACE;
    var y := x % SPACE;
    assert x == 0x1_0000 * (16 * q + y / 0x1_0000) + y % 0x1_0000;
  }

  lemma Carry(a: nat, n: nat)
    ensures (a % 0x1_0000 + n + 1) / 0x1_0000
            == (a % 0x1_0000 + n) / 0x1_0000 + Bool((a + n) % 0x1_0000 == 0xffff)
  {
  }

  lemma Borrow(a: nat, n: nat)
    ensures (0xffff - a % 0x1_0000 + n + 1) / 0x1_0000
            == (0xffff - a % 0x1_0000 + n) / 0x1_0000 + Bool((a - n) % 0x1_0000 == 0)
  {
  }

  lemma AtDistinct(a: nat, d: Direction, j: nat, k: nat)
    requires d != Still && j < k < SPACE
    ensures At(a, d, j) != At(a, d, k)
  {
    if d == Up {
      assert (a + k) - (a + j) == k - j;
      Congruent(a + j, a + k);
    } else {
      Congruent(a - k, a - j);
    }
  }

  lemma Congruent(x: int, y: int)
    requires x < y < x + SPACE
    ensures x % SPACE != y % SPACE
  {
  }

  // ----------------------------------------------------------------------------- addresses, in registers

  /** A twenty-bit address in three registers. */
  function Address(low: Bits, high: Bits, bank: Bits): (a: nat)
    ensures a < SPACE
  {
    low.Value() + 256 * high.Value() + 0x1_0000 * Low4(bank)
  }

  function AddressAt(r: RegFile, index: nat): (a: nat)
    requires index + 2 < IO_REGISTER_COUNT
    ensures a < SPACE
  {
    Address(r[index], r[index + 1], r[index + 2])
  }

  function CountAt(r: RegFile, index: nat): (n: nat)
    requires index + 1 < IO_REGISTER_COUNT
    ensures n < 0x1_0000
  {
    r[index].Value() + 256 * r[index + 1].Value()
  }

  /** The transfer count of channel 0. */
  function Count(r: RegFile): (n: nat)
    ensures n < 0x1_0000
  {
    CountAt(r, BCR0L)
  }

  function MemoryWaits(r: RegFile): nat {
    2 * Bool(r[DCNTL].b7) + Bool(r[DCNTL].b6)
  }

  function PortWaits(r: RegFile): nat {
    2 * Bool(r[DCNTL].b5) + Bool(r[DCNTL].b4) + 1
  }

  function Waits(r: RegFile, port: bool): nat {
    if port then PortWaits(r) else MemoryWaits(r)
  }

  /** The port lies in the window of the internal registers. */
  predicate InsideWindow(r: RegFile, port: nat) {
    port / 64 == 2 * Bool(r[ICR].b7) + Bool(r[ICR].b6)
  }

  lemma SplitAddress(a: nat)
    requires a < SPACE
    ensures Address(Byte(a % 256), Byte(a / 256 % 256), Byte(a / 0x1_0000)) == a
  {
    hide Bits.Value, Byte;
    ByteValue(a % 256);
    ByteValue(a / 256 % 256);
    LowNibble(a / 0x1_0000);
  }

  lemma LowNibble(n: nat)
    requires n < 16
    ensures Low4(Byte(n)) == n
  {
  }

  // ------------------------------------------------------------------------------ channel 0, in registers

  function Source(r: RegFile): Direction {
    if r[DMODE].b3 then Still else if r[DMODE].b2 then Down else Up
  }

  function Destination(r: RegFile): Direction {
    if r[DMODE].b5 then Still else if r[DMODE].b4 then Down else Up
  }

  predicate FromPort(r: RegFile) {
    r[DMODE].b3 && r[DMODE].b2
  }

  predicate IntoPort(r: RegFile) {
    r[DMODE].b5 && r[DMODE].b4
  }

  /** Both addresses move: such a transfer needs no request. */
  predicate MemoryToMemory(r: RegFile) {
    !r[DMODE].b3 && !r[DMODE].b5
  }

  /** No port of the transfer is an internal register. */
  predicate Outside(r: RegFile) {
    && (FromPort(r) ==> !InsideWindow(r, AddressAt(r, SAR0L) % 0x1_0000))
    && (IntoPort(r) ==> !InsideWindow(r, AddressAt(r, DAR0L) % 0x1_0000))
  }

  /** The cycles of one byte: a carry into bit 16 costs one more where memory has no wait states. */
  function ByteCycles(r: RegFile): nat {
    6 + Waits(r, FromPort(r)) + Waits(r, IntoPort(r))
    + if MemoryWaits(r) == 0
      then Bool(Crosses(AddressAt(r, SAR0L), Source(r))) + Bool(Crosses(AddressAt(r, DAR0L), Destination(r)))
      else 0
  }

  /** The cycles of `n` bytes, in closed form. */
  function BurstCycles(r: RegFile, n: nat): nat {
    var each: nat := 6 + Waits(r, FromPort(r)) + Waits(r, IntoPort(r));
    n * each
    + if MemoryWaits(r) == 0
      then Crossings(AddressAt(r, SAR0L), Source(r), n) + Crossings(AddressAt(r, DAR0L), Destination(r), n)
      else 0
  }

  /** The registers that a transfer may change. */
  predicate IsTransferRegister(index: nat) {
    SAR0L <= index <= BCR0H || index == DSTAT
  }

  /** The registers after `n` bytes of a transfer that began at `r`. */
  ghost predicate Transferred(r: RegFile, r': RegFile, n: nat)
    requires n <= Count(r)
  {
    && AddressAt(r', SAR0L) == At(AddressAt(r, SAR0L), Source(r), n)
    && AddressAt(r', DAR0L) == At(AddressAt(r, DAR0L), Destination(r), n)
    && Count(r') == Count(r) - n
    && r'[DSTAT] == (if n > 0 && n == Count(r) then r[DSTAT].(b6 := false) else r[DSTAT])
    && forall i :: 0 <= i < IO_REGISTER_COUNT && !IsTransferRegister(i) ==> r'[i] == r[i]
  }

  /** Memory and host after `n` bytes of it. */
  function Copied(host: HostBus, w: World, r: RegFile, n: nat, unmapped: byte): World {
    OrderedCopy(host, w, Walk(FromPort(r), AddressAt(r, SAR0L), Source(r), n),
                Walk(IntoPort(r), AddressAt(r, DAR0L), Destination(r), n), unmapped)
  }

  /** Memory and host after the next byte. */
  function OneByte(host: HostBus, w: World, r: RegFile, unmapped: byte): World {
    Moved(host, w, EndOf(FromPort(r), AddressAt(r, SAR0L)), EndOf(IntoPort(r), AddressAt(r, DAR0L)), unmapped)
  }

  /** One more byte after `n`. */
  lemma OneMoreByte(host: HostBus, w: World, r: RegFile, n: nat, r': RegFile, unmapped: byte)
    requires n < Count(r) && Transferred(r, r', n)
    ensures Copied(host, w, r, n + 1, unmapped) == OneByte(host, Copied(host, w, r, n, unmapped), r', unmapped)
    ensures BurstCycles(r, n + 1) == BurstCycles(r, n) + ByteCycles(r')
  {
    hide Address, Bits.Value, OrderedCopy, At, Crosses, Crossings, Moved, Walk, Waits, MemoryWaits;
    var s, d := AddressAt(r, SAR0L), AddressAt(r, DAR0L);
    SameWaits(r, r', n);
    WalkNext(FromPort(r), s, Source(r), n);
    WalkNext(IntoPort(r), d, Destination(r), n);
    CopyOneMore(host, w, Walk(FromPort(r), s, Source(r), n), Walk(IntoPort(r), d, Destination(r), n),
                EndOf(FromPort(r), At(s, Source(r), n)), EndOf(IntoPort(r), At(d, Destination(r), n)), unmapped);
    CrossingsNext(s, Source(r), n);
    CrossingsNext(d, Destination(r), n);
    var each := 6 + Waits(r, FromPort(r)) + Waits(r, IntoPort(r));
    assert (n + 1) * each == n * each + each;
  }

  /** What a transfer does not change. */
  lemma SameWaits(r: RegFile, r': RegFile, n: nat)
    requires n <= Count(r) && Transferred(r, r', n)
    ensures MemoryWaits(r') == MemoryWaits(r) && forall port :: Waits(r', port) == Waits(r, port)
    ensures FromPort(r') == FromPort(r) && IntoPort(r') == IntoPort(r)
    ensures Source(r') == Source(r) && Destination(r') == Destination(r)
    ensures Outside(r') <==> Outside(r)
  {
    hide AddressAt, CountAt;
    var s, d := AddressAt(r, SAR0L), AddressAt(r, DAR0L);
    assert At(s, Still, n) == s && At(d, Still, n) == d;
  }

  /** Where no byte is read after it has been overwritten, a burst between memories moves the block: every RAM
      byte of the destination is what the source held at the start. */
  lemma BurstMoves(host: HostBus, w: World, r: RegFile, n: nat, unmapped: byte, i: nat)
    requires i < n <= Count(r) && !FromPort(r) && !IntoPort(r) && Destination(r) != Still
    requires Local(w.cells, At(AddressAt(r, SAR0L), Source(r), i))
    requires var d := At(AddressAt(r, DAR0L), Destination(r), i); d < |w.cells| && w.cells[d].RamCell?
    requires forall j, k :: 0 <= j < k < n ==>
               At(AddressAt(r, SAR0L), Source(r), k) != At(AddressAt(r, DAR0L), Destination(r), j)
    ensures Copied(host, w, r, n, unmapped).cells[At(AddressAt(r, DAR0L), Destination(r), i)]
            == PhysicalMemory.RamCell(Load(w.cells, At(AddressAt(r, SAR0L), Source(r), i), unmapped))
  {
    hide Address, Bits.Value, At;
    var s, d := AddressAt(r, SAR0L), AddressAt(r, DAR0L);
    var from, into := Walk(false, s, Source(r), n), Walk(false, d, Destination(r), n);
    forall j, k | 0 <= j < k < n
      ensures into[j] != into[k] && from[k] != into[j]
    {
      AtDistinct(d, Destination(r), j, k);
    }
    CopyMoves(host, w, from, into, unmapped, i);
  }

  lemma TransferredMore(r: RegFile, r': RegFile, r'': RegFile, n: nat)
    requires n < Count(r) && Transferred(r, r', n) && Transferred(r', r'', 1)
    ensures Transferred(r, r'', n + 1)
  {
    hide Address, Bits.Value;
    AtNext(AddressAt(r, SAR0L), Source(r), n);
    AtNext(AddressAt(r, DAR0L), Destination(r), n);
  }

  // ------------------------------------------------------------------------------ channel 1, in registers

  function Count1(r: RegFile): (n: nat)
    ensures n < 0x1_0000
  {
    CountAt(r, BCR1L)
  }

  function Port1(r: RegFile): nat {
    CountAt(r, IAR1L)
  }

  /** Which way the memory address of channel 1 moves. */
  function Along(r: RegFile): Direction {
    if r[DCNTL].b0 then Down else Up
  }

  /** Channel 1 moves bytes from memory to its port. */
  predicate ToPort(r: RegFile) {
    !r[DCNTL].b1
  }

  function PortByteCycles(r: RegFile): nat {
    6 + MemoryWaits(r) + PortWaits(r) + Bool(MemoryWaits(r) == 0 && Crosses(AddressAt(r, MAR1L), Along(r)))
  }

  /** The cycles of `n` bytes of channel 1, in closed form. */
  function PortCycles(r: RegFile, n: nat): nat {
    var each: nat := 6 + MemoryWaits(r) + PortWaits(r);
    n * each + if MemoryWaits(r) == 0 then Crossings(AddressAt(r, MAR1L), Along(r), n) else 0
  }

  /** The registers after `n` bytes of a transfer of channel 1 that began at `r`. */
  ghost predicate Passed(r: RegFile, r': RegFile, n: nat)
    requires n <= Count1(r)
  {
    && AddressAt(r', MAR1L) == At(AddressAt(r, MAR1L), Along(r), n)
    && Count1(r') == Count1(r) - n
    && r'[DSTAT] == (if n > 0 && n == Count1(r) then r[DSTAT].(b7 := false) else r[DSTAT])
    && forall i :: 0 <= i < IO_REGISTER_COUNT && !(MAR1L <= i < MAR1L + 3) && !(BCR1L <= i < BCR1L + 2)
                   && i != DSTAT ==>
         r'[i] == r[i]
  }

  /** Memory and host after `n` bytes of it. */
  function Carried(host: HostBus, w: World, r: RegFile, n: nat, unmapped: byte): World {
    var memory, port := Walk(false, AddressAt(r, MAR1L), Along(r), n), seq(n, _ => AtPort(Port1(r)));
    if ToPort(r) then OrderedCopy(host, w, memory, port, unmapped)
    else OrderedCopy(host, w, port, memory, unmapped)
  }

  /** Memory and host after the next byte of channel 1. */
  function OneByte1(host: HostBus, w: World, r: RegFile, unmapped: byte): World {
    var memory, port := AtMemory(AddressAt(r, MAR1L)), AtPort(Port1(r));
    if ToPort(r) then Moved(host, w, memory, port, unmapped) else Moved(host, w, port, memory, unmapped)
  }

  /** One more byte of channel 1. */
  lemma PortOneMore(host: HostBus, w: World, r: RegFile, n: nat, r': RegFile, unmapped: byte)
    requires n < Count1(r) && Passed(r, r', n)
    ensures Carried(host, w, r, n + 1, unmapped) == OneByte1(host, Carried(host, w, r, n, unmapped), r', unmapped)
    ensures PortCycles(r, n + 1) == PortCycles(r, n) + PortByteCycles(r')
    ensures Port1(r') == Port1(r)
  {
    hide Address, Bits.Value, OrderedCopy, At, Crosses, Crossings, Moved;
    var a := AddressAt(r, MAR1L);
    var memory, port := Walk(false, a, Along(r), n), seq(n, _ => AtPort(Port1(r)));
    WalkNext(false, a, Along(r), n);
    assert seq(n + 1, _ => AtPort(Port1(r))) == port + [AtPort(Port1(r))];
    CopyOneMore(host, w, memory, port, AtMemory(At(a, Along(r), n)), AtPort(Port1(r)), unmapped);
    CopyOneMore(host, w, port, memory, AtPort(Port1(r)), AtMemory(At(a, Along(r), n)), unmapped);
    CrossingsNext(a, Along(r), n);
    var each := 6 + MemoryWaits(r) + PortWaits(r);
    assert (n + 1) * each == n * each + each;
  }

  /** A transfer to the port tells it the bytes of local memory in order, and leaves memory alone. */
  lemma PortSends(host: HostBus, w: World, r: RegFile, n: nat, unmapped: byte)
    requires ToPort(r) && forall i :: 0 <= i < n ==> Local(w.cells, At(AddressAt(r, MAR1L), Along(r), i))
    ensures Carried(host, w, r, n, unmapped)
         == World(w.cells, w.calls + seq(n, i requires 0 <= i < n =>
              Machine.IoWrite(Port1(r), Load(w.cells, At(AddressAt(r, MAR1L), Along(r), i), unmapped))))
  {
    hide Address, Bits.Value, At;
    PortHears(host, w, Walk(false, AddressAt(r, MAR1L), Along(r), n), seq(n, _ => AtPort(Port1(r))), unmapped,
              Port1(r));
  }

  /** A transfer from the port stores its answers along the walk. */
  lemma PortStores(host: HostBus, w: World, r: RegFile, n: nat, unmapped: byte, i: nat)
    requires !ToPort(r) && i < n <= Count1(r)
    requires forall k :: 0 <= k < n ==>
               var a := At(AddressAt(r, MAR1L), Along(r), k); a < |w.cells| && w.cells[a].RamCell?
    ensures Carried(host, w, r, n, unmapped).cells[At(AddressAt(r, MAR1L), Along(r), i)]
         == PhysicalMemory.RamCell(host(w.calls + seq(i + 1, _ => Machine.IoRead(Port1(r)))))
  {
    hide Address, Bits.Value, At;
    var into := Walk(false, AddressAt(r, MAR1L), Along(r), n);
    forall j, k | 0 <= j < k < n
      ensures into[j] != into[k]
    {
      AtDistinct(AddressAt(r, MAR1L), Along(r), j, k);
    }
    PortFills(host, w, seq(n, _ => AtPort(Port1(r))), into, unmapped, Port1(r), i);
  }

  lemma PassedMore(r: RegFile, r': RegFile, r'': RegFile, n: nat)
    requires n < Count1(r) && Passed(r, r', n) && Passed(r', r'', 1)
    ensures Passed(r, r'', n + 1)
  {
    hide Address, Bits.Value;
    AtNext(AddressAt(r, MAR1L), Along(r), n);
  }

  // ------------------------------------------------------------------------- which channel is served

  /** A channel is requested: by an edge that is still pending, or by the level. */
  predicate Requested(edgeSense: bool, edge: bool, level: bool) {
    if edgeSense then edge else level
  }

  /** Channel 0 has bytes to move, and may: at once between moving memory addresses, on request if one end moves. */
  predicate Serves0(r: RegFile, edge: bool, level: bool) {
    && r[DSTAT].b6 && Count(r) > 0
    && (MemoryToMemory(r)
        || (!(r[DMODE].b3 && r[DMODE].b5) && Requested(r[DCNTL].b3, edge, level)))
  }

  /** How many bytes channel 0 moves in one service. */
  function Transfers0(r: RegFile): nat {
    if (if MemoryToMemory(r) then r[DMODE].b1 else !r[DCNTL].b3) then Count(r) else 1
  }

  predicate Serves1(r: RegFile, edge: bool, level: bool) {
    r[DSTAT].b7 && Count1(r) > 0 && Requested(r[DCNTL].b2, edge, level)
  }

  function Transfers1(r: RegFile): nat {
    if r[DCNTL].b2 then 1 else Count1(r)
  }

  /** An enabled channel 0 without bytes to move is turned off. */
  function Expired0(r: RegFile): RegFile {
    if r[DSTAT].b6 && Count(r) == 0 then r[DSTAT := r[DSTAT].(b6 := false)] else r
  }

  function Expired1(r: RegFile): RegFile {
    if r[DSTAT].b7 && Count1(r) == 0 then r[DSTAT := r[DSTAT].(b7 := false)] else r
  }

  // ----------------------------------------------------------- the same, by the numbers in the registers

  /** What a service of the controller changes. */
  datatype Scene = Scene(regs: RegFile, world: World, edges: Two<bool>)

  ghost function Word(r: RegFile, index: nat): nat
    requires index + 1 < IO_REGISTER_COUNT
  {
    r[index].Value() + 256 * r[index + 1].Value()
  }

  ghost function LongWord(r: RegFile, index: nat): nat
    requires index + 2 < IO_REGISTER_COUNT
  {
    Word(r, index) + 0x1_0000 * (r[index + 2].Value() % 16)
  }

  /** Mode 0 counts up, mode 1 counts down, the others stand still. */
  ghost function Onward(a: nat, mode: nat, i: nat): int {
    if mode == 0 then (a + i) % 0x10_0000 else if mode == 1 then (a - i) % 0x10_0000 else a
  }

  /** Where byte `i` is read or written; mode 3 is a port. */
  ghost function EndIn(a: nat, mode: nat, i: nat): End {
    if mode == 3 then AtPort(a % 0x1_0000) else if mode == 0 then AtMemory((a + i) % 0x10_0000)
    else if mode == 1 then AtMemory((a - i) % 0x10_0000) else AtMemory(a)
  }

  ghost function EndsIn(a: nat, mode: nat, n: nat): seq<End> {
    seq(n, i requires 0 <= i < n => EndIn(a, mode, i))
  }

  ghost function PortTimes(port: nat, n: nat): seq<End> {
    seq(n, _ => AtPort(port))
  }

  ghost function WaitsIn(r: RegFile, mode: nat): nat {
    if mode == 3 then r[DCNTL].Value() / 16 % 4 + 1 else r[DCNTL].Value() / 64
  }

  /** How often `n` moves from `a` carry into bit 16; that costs a cycle where memory has no wait states. */
  ghost function Carries(r: RegFile, a: nat, mode: nat, n: nat): nat {
    if r[DCNTL].Value() / 64 != 0 then 0
    else if mode == 0 then (a % 0x1_0000 + n) / 0x1_0000
    else if mode == 1 then (0xffff - a % 0x1_0000 + n) / 0x1_0000
    else 0
  }

  ghost function SourceMode(r: RegFile): nat {
    r[DMODE].Value() / 4 % 4
  }

  ghost function DestinationMode(r: RegFile): nat {
    r[DMODE].Value() / 16 % 4
  }

  /** Channel 0 is enabled, has bytes to move, and moves between memories at once, or is asked to move between
      memory and a port or a fixed address. */
  ghost predicate Turn0(s: Scene, level: Two<bool>) {
    && s.regs[DSTAT].b6 && Word(s.regs, BCR0L) != 0
    && if SourceMode(s.regs) <= 1 && DestinationMode(s.regs) <= 1 then true
       else
         && (SourceMode(s.regs) <= 1 || DestinationMode(s.regs) <= 1)
         && if s.regs[DCNTL].b3 then s.edges.first else level.first
  }

  /** Channel 1 is enabled, has bytes to move, and is asked to. */
  ghost predicate Turn1(s: Scene, level: Two<bool>) {
    && s.regs[DSTAT].b7 && Word(s.regs, BCR1L) != 0
    && if s.regs[DCNTL].b2 then s.edges.second else level.second
  }

  /** All bytes in a burst between memories or on a level, else one. */
  ghost function Bytes0(r: RegFile): nat {
    if SourceMode(r) <= 1 && DestinationMode(r) <= 1 then (if r[DMODE].b1 then Word(r, BCR0L) else 1)
    else if r[DCNTL].b3 then 1 else Word(r, BCR0L)
  }

  ghost function Bytes1(r: RegFile): nat {
    if r[DCNTL].b2 then 1 else Word(r, BCR1L)
  }

  /** What channel 0 does in its turn: SAR, DAR and BCR move on by `n`, byte `i` goes from where the source is after
      `i` bytes to where the destination is, and the enable goes out with the last one. */
  ghost predicate Does0(host: HostBus, unmapped: byte, s: Scene, s': Scene, cycles: nat) {
    var (r, n) := (s.regs, Bytes0(s.regs));
    var (source, destination) := (LongWord(r, SAR0L), LongWord(r, DAR0L));
    && LongWord(s'.regs, SAR0L) == Onward(source, SourceMode(r), n)
    && LongWord(s'.regs, DAR0L) == Onward(destination, DestinationMode(r), n)
    && Word(s'.regs, BCR0L) == Word(r, BCR0L) - n
    && s'.regs[DSTAT] == r[DSTAT].(b6 := n < Word(r, BCR0L))
    && (forall i :: 0 <= i < IO_REGISTER_COUNT && !(SAR0L <= i <= BCR0H) && i != DSTAT ==> s'.regs[i] == r[i])
    && s'.edges == Two(false, s.edges.second)
    && s'.world == OrderedCopy(host, s.world, EndsIn(source, SourceMode(r), n),
                               EndsIn(destination, DestinationMode(r), n), unmapped)
    && cycles == n * (6 + WaitsIn(r, SourceMode(r)) + WaitsIn(r, DestinationMode(r)))
                 + Carries(r, source, SourceMode(r), n) + Carries(r, destination, DestinationMode(r), n)
  }

  /** Which way the memory address of channel 1 moves. */
  ghost function MemoryMode(r: RegFile): nat {
    if r[DCNTL].b0 then 1 else 0
  }

  /** The registers after `n` bytes of channel 1; channel 0 has gone off if it had none to move. */
  ghost predicate Leaves1(r: RegFile, r': RegFile, n: nat) {
    && LongWord(r', MAR1L) == Onward(LongWord(r, MAR1L), MemoryMode(r), n)
    && Word(r', BCR1L) == Word(r, BCR1L) - n
    && r'[DSTAT] == r[DSTAT].(b6 := r[DSTAT].b6 && Word(r, BCR0L) != 0, b7 := n < Word(r, BCR1L))
    && forall i :: 0 <= i < IO_REGISTER_COUNT && !(MAR1L <= i < MAR1L + 3) && !(BCR1L <= i <= BCR1H)
                   && i != DSTAT ==>
         r'[i] == r[i]
  }

  /** What channel 1 does in its turn, between memory and its port. */
  ghost predicate Does1(host: HostBus, unmapped: byte, s: Scene, s': Scene, cycles: nat) {
    var (r, n) := (s.regs, Bytes1(s.regs));
    var (a, mode) := (LongWord(r, MAR1L), MemoryMode(r));
    var (memory, port) := (EndsIn(a, mode, n), PortTimes(Word(r, IAR1L), n));
    && Leaves1(r, s'.regs, n) && s'.edges == Two(s.edges.first, false)
    && s'.world == (if r[DCNTL].b1 then OrderedCopy(host, s.world, port, memory, unmapped)
                    else OrderedCopy(host, s.world, memory, port, unmapped))
    && cycles == n * (6 + WaitsIn(r, mode) + WaitsIn(r, 3)) + Carries(r, a, mode, n)
  }

  /** Nobody's turn: an enabled channel without bytes to move goes off. */
  ghost predicate DoesNothing(s: Scene, s': Scene, cycles: nat) {
    var r := s.regs;
    && cycles == 0 && s'.world == s.world && s'.edges == s.edges
    && (forall i :: 0 <= i < IO_REGISTER_COUNT && i != DSTAT ==> s'.regs[i] == r[i])
    && s'.regs[DSTAT] == r[DSTAT].(b6 := r[DSTAT].b6 && Word(r, BCR0L) != 0,
                                   b7 := r[DSTAT].b7 && Word(r, BCR1L) != 0)
  }

  /** The registers by their bits are the registers by their numbers. */
  lemma NumbersAre(r: RegFile)
    ensures forall i: nat :: i + 2 < IO_REGISTER_COUNT ==> LongWord(r, i) == AddressAt(r, i)
    ensures SourceMode(r) == 2 * Bool(r[DMODE].b3) + Bool(r[DMODE].b2)
    ensures DestinationMode(r) == 2 * Bool(r[DMODE].b5) + Bool(r[DMODE].b4)
    ensures r[DCNTL].Value() / 64 == MemoryWaits(r) && r[DCNTL].Value() / 16 % 4 + 1 == PortWaits(r)
  {
    hide Bits.Value;
    ValueParts(r[DMODE]);
    ValueParts(r[DCNTL]);
    forall i: nat | i + 2 < IO_REGISTER_COUNT
      ensures LongWord(r, i) == AddressAt(r, i)
    {
      ValueParts(r[i + 2]);
    }
  }

  ghost function ModeOf(d: Direction, port: bool): nat {
    if port then 3 else match d case Up => 0 case Down => 1 case Still => 2
  }

  lemma WalkIs(a: nat, d: Direction, port: bool, n: nat)
    requires port ==> d == Still
    ensures Walk(port, a, d, n) == EndsIn(a, ModeOf(d, port), n)
    ensures At(a, d, n) == Onward(a, ModeOf(d, port), n)
  {
  }

  /** Whose turn it is, and for how many bytes. */
  lemma TurnsAre(s: Scene, level: Two<bool>)
    ensures Turn0(s, level) <==> Serves0(s.regs, s.edges.first, level.first)
    ensures Turn1(s, level) <==> Serves1(s.regs, s.edges.second, level.second)
    ensures Bytes0(s.regs) == Transfers0(s.regs) && Bytes1(s.regs) == Transfers1(s.regs)
    ensures SourceMode(s.regs) == ModeOf(Source(s.regs), FromPort(s.regs))
    ensures DestinationMode(s.regs) == ModeOf(Destination(s.regs), IntoPort(s.regs))
  {
    hide Bits.Value, LongWord, AddressAt;
    NumbersAre(s.regs);
  }

  /** What a burst of channel 0 does, by the numbers. */
  lemma BurstIs(host: HostBus, unmapped: byte, s: Scene, s': Scene, cycles: nat)
    requires Count(s.regs) > 0 && s.regs[DSTAT].b6
    requires Transferred(s.regs, s'.regs, Transfers0(s.regs)) && cycles == BurstCycles(s.regs, Transfers0(s.regs))
    requires s'.world == Copied(host, s.world, s.regs, Transfers0(s.regs), unmapped)
    requires s'.edges == s.edges.With(0, false)
    ensures Does0(host, unmapped, s, s', cycles)
  {
    hide Bits.Value, LongWord, AddressAt, OrderedCopy, Walk, EndsIn, Onward, SourceMode, DestinationMode, At;
    hide MemoryWaits, PortWaits;
    var (r, n) := (s.regs, Transfers0(s.regs));
    NumbersAre(r);
    NumbersAre(s'.regs);
    TurnsAre(s, Two(false, false));
    WalkIs(AddressAt(r, SAR0L), Source(r), FromPort(r), n);
    WalkIs(AddressAt(r, DAR0L), Destination(r), IntoPort(r), n);
  }

  /** What a burst of channel 1 does, by the numbers. */
  lemma PassIs(host: HostBus, unmapped: byte, s: Scene, s': Scene, cycles: nat)
    requires Count1(Expired0(s.regs)) == Count1(s.regs) > 0 && s.regs[DSTAT].b7
    requires Passed(Expired0(s.regs), s'.regs, Transfers1(s.regs)) && cycles == PortCycles(s.regs, Transfers1(s.regs))
    requires s'.world == Carried(host, s.world, s.regs, Transfers1(s.regs), unmapped)
    requires s'.edges == s.edges.With(1, false)
    ensures Does1(host, unmapped, s, s', cycles)
  {
    hide Bits.Value, LongWord, AddressAt, OrderedCopy, EndsIn, PortTimes, MemoryWaits, PortWaits, Expired0, Passed;
    hide PortCycles, Carried, Leaves1, Carries, WaitsIn;
    var (r, n) := (s.regs, Transfers1(s.regs));
    NumbersAre(r);
    CarriedIs(host, s.world, r, n, unmapped);
    PassLeaves(r, s'.regs, n);
    PassCosts(r, n);
  }

  lemma PassLeaves(r: RegFile, r': RegFile, n: nat)
    requires 0 < n <= Count1(r) && r[DSTAT].b7 && Count1(Expired0(r)) == Count1(r) && Passed(Expired0(r), r', n)
    ensures Leaves1(r, r', n)
  {
    hide Bits.Value, LongWord, AddressAt, Onward, At, Expired0, Passed, MemoryWaits, PortWaits;
    NumbersAre(r);
    NumbersAre(r');
    WalkIs(AddressAt(r, MAR1L), Along(r), false, n);
    PassedAfter(r, r', n);
  }

  /** Channel 0 may have gone off before. */
  lemma PassedAfter(r: RegFile, r': RegFile, n: nat)
    requires 0 < n <= Count1(r) && r[DSTAT].b7 && Count1(Expired0(r)) == Count1(r) && Passed(Expired0(r), r', n)
    ensures AddressAt(r', MAR1L) == At(AddressAt(r, MAR1L), Along(r), n) && Count1(r') == Count1(r) - n
    ensures r'[DSTAT] == r[DSTAT].(b6 := r[DSTAT].b6 && Count(r) != 0, b7 := n < Count1(r))
    ensures forall i :: 0 <= i < IO_REGISTER_COUNT && !(MAR1L <= i < MAR1L + 3) && !(BCR1L <= i <= BCR1H)
                        && i != DSTAT ==>
              r'[i] == r[i]
  {
    hide Bits.Value, Low4, At;
    SameAddress1(r, Expired0(r));
  }

  lemma CarriedIs(host: HostBus, w: World, r: RegFile, n: nat, unmapped: byte)
    ensures var memory := EndsIn(AddressAt(r, MAR1L), ModeOf(Along(r), false), n);
            var port := PortTimes(CountAt(r, IAR1L), n);
            Carried(host, w, r, n, unmapped)
            == if r[DCNTL].b1 then OrderedCopy(host, w, port, memory, unmapped)
               else OrderedCopy(host, w, memory, port, unmapped)
  {
    hide Bits.Value, AddressAt, OrderedCopy, EndsIn, At, Along;
    WalkIs(AddressAt(r, MAR1L), Along(r), false, n);
  }

  lemma PassCosts(r: RegFile, n: nat)
    ensures PortCycles(r, n) == n * (6 + WaitsIn(r, MemoryMode(r)) + WaitsIn(r, 3))
                                + Carries(r, LongWord(r, MAR1L), MemoryMode(r), n)
  {
    hide Bits.Value, LongWord, AddressAt, MemoryWaits, PortWaits;
    NumbersAre(r);
  }

  lemma NothingIs(s: Scene, s': Scene)
    requires s'.world == s.world && s'.edges == s.edges
    requires s'.regs == Expired1(Expired0(s.regs))
    ensures DoesNothing(s, s', 0)
  {
    hide Bits.Value;
  }

  ghost predicate Does(host: HostBus, unmapped: byte, level: Two<bool>, s: Scene, s': Scene, cycles: nat) {
    if !s.regs[DSTAT].b0 then s' == s && cycles == 0
    else if Turn0(s, level) then Does0(host, unmapped, s, s', cycles)
    else if Turn1(s, level) then Does1(host, unmapped, s, s', cycles)
    else DoesNothing(s, s', cycles)
  }

  // ----------------------------------------------------------------------------------- the controller

  class Dma {
    const devices: Devices
    const memory: PhysicalMemory.Memory
    const bus: Bus
    var edgePending: Two<bool>
    var level: Two<bool>

    ghost predicate Valid()
      reads devices, devices.mmuPages, memory
    {
      devices.Valid() && memory.Valid()
    }

    /** Memory and host. */
    ghost function Now(): World
      requires memory.Valid()
      reads bus`calls, memory
    {
      WorldOf(bus, memory)
    }

    constructor (devices: Devices, memory: PhysicalMemory.Memory, bus: Bus)
      requires devices.Valid() && memory.Valid()
      ensures Valid() && this.devices == devices && this.memory == memory && this.bus == bus
      ensures edgePending == Two(false, false) && level == Two(false, false)
    {
      this.devices, this.memory, this.bus := devices, memory, bus;
      this.edgePending, this.level := Two(false, false), Two(false, false);
    }

    /** `set_dreq`: a rising edge stays pending until its channel is served. */
    method SetDreq(ch: nat, on: bool)
      modifies `edgePending, `level
      ensures ch < 2 ==>
                && level == old(level).With(ch, on)
                && edgePending == old(edgePending).With(ch, old(edgePending).Of(ch) || (on && !old(level).Of(ch)))
      ensures ch >= 2 ==> level == old(level) && edgePending == old(edgePending)
    {
      if ch >= 2 {
        return;
      }
      edgePending := edgePending.With(ch, edgePending.Of(ch) || (on && !level.Of(ch)));
      level := level.With(ch, on);
    }

    /** Stores an address in three registers. */
    method StoreAddress(index: nat, a: nat)
      requires devices.Valid() && index in {SAR0L, DAR0L, MAR1L} && a < SPACE
      modifies devices`regs
      ensures devices.Valid() && AddressAt(devices.regs, index) == a
      ensures SameBut(old(devices.regs), devices.regs, index, 3)
    {
      hide Bits.Value, Byte, Low4, Devices.Valid;
      SplitAddress(a);
      devices.StorePlain(index, Byte(a % 256));
      devices.StorePlain(index + 1, Byte(a / 256 % 256));
      devices.StorePlain(index + 2, Byte(a / 0x1_0000));
    }

    method StoreCount(index: nat, count: nat)
      requires devices.Valid() && index in {BCR0L, BCR1L} && count < 0x1_0000
      modifies devices`regs
      ensures devices.Valid() && CountAt(devices.regs, index) == count
      ensures SameBut(old(devices.regs), devices.regs, index, 2)
    {
      hide Bits.Value, Byte, Devices.Valid;
      ByteValue(count % 256);
      ByteValue(count / 256);
      devices.StorePlain(index, Byte(count % 256));
      devices.StorePlain(index + 1, Byte(count / 256));
    }

    /** The addresses move on and the count goes down. */
    method StepRegisters()
      requires devices.Valid() && Count(devices.regs) > 0
      modifies devices`regs, devices`irqPending
      ensures devices.Valid() && Transferred(old(devices.regs), devices.regs, 1)
    {
      hide Bits.Value, AddressAt, CountAt, State.Ok, ChannelsAt, WiringAt, Transferred, SameBut, Source;
      hide Destination, At;
      var r := devices.regs;
      var source, destination := AddressAt(r, SAR0L), AddressAt(r, DAR0L);
      AtNext(source, Source(r), 0);
      AtNext(destination, Destination(r), 0);
      StoreAddress(SAR0L, At(source, Source(r), 1));
      ghost var r1 := devices.regs;
      StoreAddress(DAR0L, At(destination, Destination(r), 1));
      ghost var r2 := devices.regs;
      var count := Count(r) - 1;
      StoreCount(BCR0L, count);
      TransferredOne(r, r1, r2, devices.regs);
      if count == 0 {
        devices.ClearDe0();
      }
    }

    /** `dma0_transfer_byte`. */
    method TransferByte() returns (cycles: nat)
      requires Valid() && Outside(devices.regs) && Count(devices.regs) > 0
      modifies devices`regs, devices`irqPending, memory`ramStores, bus`calls
      ensures Valid() && Transferred(old(devices.regs), devices.regs, 1)
      ensures Now() == OneByte(bus.host, old(Now()), old(devices.regs), memory.unmappedRead)
      ensures cycles == ByteCycles(old(devices.regs))
    {
      hide Bits.Value, Byte, Address, Devices.Valid, Take, Give, Transferred, Count, MemoryWaits, PortWaits;
      var r := devices.regs;
      var source, destination := AddressAt(r, SAR0L), AddressAt(r, DAR0L);
      var moved: byte;
      if FromPort(r) {
        moved := Hear(bus, memory, source % 0x1_0000);
      } else {
        moved := Fetch(bus, memory, source);
      }
      if IntoPort(r) {
        Tell(bus, memory, destination % 0x1_0000, moved);
      } else {
        Put(bus, memory, destination, moved);
      }
      cycles := 6 + Waits(r, FromPort(r)) + Waits(r, IntoPort(r));
      if MemoryWaits(r) == 0 {
        cycles := cycles + Bool(Crosses(source, Source(r))) + Bool(Crosses(destination, Destination(r)));
      }
      StepRegisters();
    }

    /** The loop of a transfer of channel 0. */
    method Burst(transfers: nat) returns (cycles: nat)
      requires Valid() && Outside(devices.regs) && 0 < transfers <= Count(devices.regs)
      modifies this`edgePending, devices`regs, devices`irqPending, memory`ramStores, bus`calls
      ensures Valid() && edgePending == old(edgePending).With(0, false)
      ensures cycles == BurstCycles(old(devices.regs), transfers)
      ensures Transferred(old(devices.regs), devices.regs, transfers)
      ensures Now() == Copied(bus.host, old(Now()), old(devices.regs), transfers, memory.unmappedRead)
    {
      hide Bits.Value, Address, AddressAt, CountAt, Devices.Valid, Copied, BurstCycles, ByteCycles, Transferred;
      hide OneByte, Count, Outside;
      edgePending := edgePending.With(0, false);
      ghost var r, w := devices.regs, Now();
      cycles := 0;
      StartsStill(bus.host, w, r, memory.unmappedRead);
      for k := 0 to transfers
        invariant Valid() && edgePending == old(edgePending).With(0, false)
        invariant Transferred(r, devices.regs, k)
        invariant Now() == Copied(bus.host, w, r, k, memory.unmappedRead)
        invariant cycles == BurstCycles(r, k)
      {
        ghost var r' := devices.regs;
        TransferredKeeps(r, r', k);
        SameWaits(r, r', k);
        OneMoreByte(bus.host, w, r, k, r', memory.unmappedRead);
        var spent := TransferByte();
        TransferredMore(r, r', devices.regs, k);
        cycles := cycles + spent;
      }
    }

    /** The part of `service_dma` that concerns channel 0. `None`: it has nothing to do, and channel 1 gets its
        turn. */
    method ServiceDma0() returns (cycles: Option<nat>)
      requires Valid()
      requires Serves0(devices.regs, edgePending.first, level.first) ==> Outside(devices.regs)
      modifies this`edgePending, devices`regs, devices`irqPending, memory`ramStores, bus`calls
      ensures Valid()
      ensures var r, n := old(devices.regs), Transfers0(old(devices.regs));
              if Serves0(r, old(edgePending).first, level.first) then
                && cycles == Some(BurstCycles(r, n))
                && Transferred(r, devices.regs, n)
                && Now() == Copied(bus.host, old(Now()), r, n, memory.unmappedRead)
                && edgePending == old(edgePending).With(0, false)
              else
                && cycles == None && devices.regs == Expired0(r)
                && Now() == old(Now()) && edgePending == old(edgePending)
                && (Expired0(r) == r ==> devices.irqPending == old(devices.irqPending))
      ensures cycles.Some? <==> Turn0(old(Here()), level)
      ensures cycles.Some? ==> Does0(bus.host, memory.unmappedRead, old(Here()), Here(), cycles.value)
    {
      hide Bits.Value, Address, AddressAt, CountAt, Devices.Valid, Copied, BurstCycles, Transferred, Outside;
      hide Does0, Turn0, Bytes0, SourceMode, DestinationMode;
      ghost var s := Here();
      TurnsAre(s, level);
      ServedHas(s.regs, edgePending, level);
      cycles := None;
      var r := devices.regs;
      if r[DSTAT].b6 {
        var count := Count(r);
        if count == 0 {
          devices.ClearDe0();
        } else if MemoryToMemory(r) {
          var spent := Burst(if r[DMODE].b1 then count else 1);
          cycles := Some(spent);
        } else if !(r[DMODE].b3 && r[DMODE].b5) && Requested(r[DCNTL].b3, edgePending.first, level.first) {
          var spent := Burst(if r[DCNTL].b3 then 1 else count);
          cycles := Some(spent);
        }
      }
      if cycles.Some? {
        BurstIs(bus.host, memory.unmappedRead, s, Here(), cycles.value);
      }
    }

    // ------------------------------------------------------------------------------- channel 1

    method StepRegisters1()
      requires devices.Valid() && Count1(devices.regs) > 0
      modifies devices`regs, devices`irqPending
      ensures devices.Valid() && Passed(old(devices.regs), devices.regs, 1)
    {
      hide Bits.Value, AddressAt, CountAt, Devices.Valid, Along, At;
      var r := devices.regs;
      var a := AddressAt(r, MAR1L);
      AtNext(a, Along(r), 0);
      StoreAddress(MAR1L, At(a, Along(r), 1));
      ghost var r1 := devices.regs;
      SameCount1(r, r1);
      var count := Count1(r) - 1;
      StoreCount(BCR1L, count);
      SameAddress1(r1, devices.regs);
      if count == 0 {
        ghost var r2 := devices.regs;
        devices.ClearDe1();
        SameAddress1(r2, devices.regs);
        SameCount1(r2, devices.regs);
      }
    }

    /** `dma1_transfer_byte`. */
    method TransferByte1() returns (cycles: nat)
      requires Valid() && Count1(devices.regs) > 0 && !InsideWindow(devices.regs, Port1(devices.regs))
      modifies devices`regs, devices`irqPending, memory`ramStores, bus`calls
      ensures Valid() && Passed(old(devices.regs), devices.regs, 1)
      ensures Now() == OneByte1(bus.host, old(Now()), old(devices.regs), memory.unmappedRead)
      ensures cycles == PortByteCycles(old(devices.regs))
    {
      hide Bits.Value, Byte, Address, Devices.Valid, Take, Give, Passed, CountAt, MemoryWaits, PortWaits;
      var r := devices.regs;
      var a := AddressAt(r, MAR1L);
      if ToPort(r) {
        var moved := Fetch(bus, memory, a);
        Tell(bus, memory, Port1(r), moved);
      } else {
        var moved := Hear(bus, memory, Port1(r));
        Put(bus, memory, a, moved);
      }
      cycles := 6 + MemoryWaits(r) + PortWaits(r) + Bool(MemoryWaits(r) == 0 && Crosses(a, Along(r)));
      StepRegisters1();
    }

    /** The loop of a transfer of channel 1. */
    method Burst1(transfers: nat) returns (cycles: nat)
      requires Valid() && !InsideWindow(devices.regs, Port1(devices.regs))
      requires 0 < transfers <= Count1(devices.regs)
      modifies this`edgePending, devices`regs, devices`irqPending, memory`ramStores, bus`calls
      ensures Valid() && edgePending == old(edgePending).With(1, false)
      ensures cycles == PortCycles(old(devices.regs), transfers)
      ensures Passed(old(devices.regs), devices.regs, transfers)
      ensures Now() == Carried(bus.host, old(Now()), old(devices.regs), transfers, memory.unmappedRead)
    {
      hide Bits.Value, Address, AddressAt, CountAt, Devices.Valid, Carried, PortCycles, PortByteCycles, Passed;
      hide OneByte1, Count1, Along, Port1;
      edgePending := edgePending.With(1, false);
      ghost var r, w := devices.regs, Now();
      cycles := 0;
      PortStartsStill(bus.host, w, r, memory.unmappedRead);
      for k := 0 to transfers
        invariant Valid() && edgePending == old(edgePending).With(1, false)
        invariant Passed(r, devices.regs, k) && cycles == PortCycles(r, k)
        invariant Now() == Carried(bus.host, w, r, k, memory.unmappedRead)
      {
        ghost var r' := devices.regs;
        PassedKeeps(r, r', k);
        PortOneMore(bus.host, w, r, k, r', memory.unmappedRead);
        var spent := TransferByte1();
        PassedMore(r, r', devices.regs, k);
        cycles := cycles + spent;
      }
    }

    /** The part of `service_dma` that concerns channel 1. */
    method ServiceDma1() returns (cycles: nat)
      requires Valid()
      requires Serves1(devices.regs, edgePending.second, level.second) ==>
                 !InsideWindow(devices.regs, Port1(devices.regs))
      modifies this`edgePending, devices`regs, devices`irqPending, memory`ramStores, bus`calls
      ensures Valid()
      ensures var r, n := old(devices.regs), Transfers1(old(devices.regs));
              if Serves1(r, old(edgePending).second, level.second) then
                && Passed(r, devices.regs, n) && cycles == PortCycles(r, n)
                && Now() == Carried(bus.host, old(Now()), r, n, memory.unmappedRead)
                && edgePending == old(edgePending).With(1, false)
              else
                && cycles == 0 && devices.regs == Expired1(r)
                && Now() == old(Now()) && edgePending == old(edgePending)
                && (Expired1(r) == r ==> devices.irqPending == old(devices.irqPending))
    {
      hide Bits.Value, Address, CountAt, Devices.Valid, Carried, Passed, PortCycles, InsideWindow, Port1;
      cycles := 0;
      var r := devices.regs;
      if r[DSTAT].b7 {
        var count := Count1(r);
        if count == 0 {
          devices.ClearDe1();
        } else if Requested(r[DCNTL].b2, edgePending.second, level.second) {
          cycles := Burst1(if r[DCNTL].b2 then 1 else count);
        }
      }
    }

    /** `service_dma` finds nothing to do. */
    predicate Idle()
      reads `edgePending, `level, devices`regs
    {
      var r := devices.regs;
      r[DSTAT].b0 ==>
        && !Serves0(r, edgePending.first, level.first) && !Serves1(r, edgePending.second, level.second)
        && Expired0(r) == r && Expired1(r) == r
    }

    /** The two channels in turn. */
    method ServeChannels() returns (cycles: nat)
      requires Valid()
      requires devices.regs[DSTAT].b0 ==>
                 if Serves0(devices.regs, edgePending.first, level.first) then Outside(devices.regs)
                 else Serves1(devices.regs, edgePending.second, level.second) ==>
                        !InsideWindow(devices.regs, Port1(devices.regs))
      modifies this`edgePending, devices`regs, devices`irqPending, memory`ramStores, bus`calls
      ensures Valid()
      ensures var r, w, e := old(devices.regs), old(Now()), old(edgePending);
              if !r[DSTAT].b0 then cycles == 0 && devices.regs == r && Now() == w && edgePending == e
              else if Serves0(r, e.first, level.first) then
                && cycles == BurstCycles(r, Transfers0(r)) && Transferred(r, devices.regs, Transfers0(r))
                && Now() == Copied(bus.host, w, r, Transfers0(r), memory.unmappedRead)
                && edgePending == e.With(0, false)
              else if Serves1(r, e.second, level.second) then
                && cycles == PortCycles(r, Transfers1(r))
                && Passed(Expired0(r), devices.regs, Transfers1(r))
                && Now() == Carried(bus.host, w, r, Transfers1(r), memory.unmappedRead)
                && edgePending == e.With(1, false)
              else
                cycles == 0 && devices.regs == Expired1(Expired0(r)) && Now() == w && edgePending == e
      ensures old(Idle()) ==> cycles == 0 && devices.regs == old(devices.regs)
                              && devices.irqPending == old(devices.irqPending)
    {
      hide Bits.Value, Address, AddressAt, CountAt, Devices.Valid, Copied, BurstCycles, Transferred, Outside;
      hide Carried, Passed, PortCycles, InsideWindow, Port1, Serves0, Transfers0;
      cycles := 0;
      if !devices.regs[DSTAT].b0 {
        return;
      }
      ExpiredSame(bus.host, Now(), devices.regs, memory.unmappedRead);
      var first := ServiceDma0();
      match first
      case Some(spent) => cycles := spent;
      case None => cycles := ServiceDma1();
    }

    /** Registers, memory, host and edges. */
    ghost function Here(): Scene
      requires memory.Valid()
      reads `edgePending, devices`regs, bus`calls, memory
    {
      Scene(devices.regs, Now(), edgePending)
    }

    /** `service_dma`, with no port in the window of the internal registers: which channel is served, what it
        moves, what it leaves in the registers and what it costs; the request mask stays fresh throughout. */
    method ServiceDma() returns (cycles: nat)
      requires Valid()
      requires devices.regs[DSTAT].b0 ==>
                 if Serves0(devices.regs, edgePending.first, level.first) then Outside(devices.regs)
                 else Serves1(devices.regs, edgePending.second, level.second) ==>
                        !InsideWindow(devices.regs, Port1(devices.regs))
      modifies this`edgePending, devices`regs, devices`irqPending, memory`ramStores, bus`calls
      ensures Valid()
      ensures Does(bus.host, memory.unmappedRead, level, old(Here()), Here(), cycles)
      ensures old(Idle()) ==> cycles == 0 && devices.regs == old(devices.regs) && Now() == old(Now())
                              && edgePending == old(edgePending) && devices.irqPending == old(devices.irqPending)
    {
      hide Bits.Value, Devices.Valid, Copied, BurstCycles, Transferred, Outside, Carried, Passed, PortCycles;
      hide InsideWindow, Port1, Serves0, Serves1, Expired0, Expired1, Does0, Does1, DoesNothing, Turn0, Turn1;
      ghost var s := Here();
      TurnsAre(s, level);
      ServedHas(s.regs, edgePending, level);
      ExpiredSame(bus.host, s.world, s.regs, memory.unmappedRead);
      cycles := ServeChannels();
      if !s.regs[DSTAT].b0 {
      } else if Turn0(s, level) {
        BurstIs(bus.host, memory.unmappedRead, s, Here(), cycles);
      } else if Turn1(s, level) {
        PassIs(bus.host, memory.unmappedRead, s, Here(), cycles);
      } else {
        NothingIs(s, Here());
      }
    }
  }

  lemma ServedHas(r: RegFile, edges: Two<bool>, level: Two<bool>)
    ensures Serves0(r, edges.first, level.first) ==> Count(r) > 0 && r[DSTAT].b6
    ensures Serves1(r, edges.second, level.second) ==> Count1(r) > 0 && r[DSTAT].b7
  {
  }

  /** Turning channel 0 off means nothing to channel 1. */
  lemma ExpiredSame(host: HostBus, w: World, r: RegFile, unmapped: byte)
    ensures var r' := Expired0(r);
            && Count1(r') == Count1(r) && Port1(r') == Port1(r) && r'[DCNTL] == r[DCNTL]
            && r'[DSTAT].b7 == r[DSTAT].b7
            && (InsideWindow(r', Port1(r)) <==> InsideWindow(r, Port1(r)))
    ensures forall n: nat ::
              && PortCycles(Expired0(r), n) == PortCycles(r, n)
              && Carried(host, w, Expired0(r), n, unmapped) == Carried(host, w, r, n, unmapped)
  {
    hide Bits.Value, OrderedCopy, Crossings, At;
  }

  /** Only the registers from `first` on may differ. */
  ghost predicate SameBut(r: RegFile, r': RegFile, first: nat, count: nat) {
    forall i :: 0 <= i < IO_REGISTER_COUNT && !(first <= i < first + count) ==> r'[i] == r[i]
  }

  /** The addresses and the count have been stored; the enable is still to be cleared after the last byte. */
  lemma TransferredOne(r: RegFile, r1: RegFile, r2: RegFile, r3: RegFile)
    requires Count(r) > 0
    requires SameBut(r, r1, SAR0L, 3) && AddressAt(r1, SAR0L) == At(AddressAt(r, SAR0L), Source(r), 1)
    requires SameBut(r1, r2, DAR0L, 3) && AddressAt(r2, DAR0L) == At(AddressAt(r, DAR0L), Destination(r), 1)
    requires SameBut(r2, r3, BCR0L, 2) && Count(r3) == Count(r) - 1
    ensures Count(r) > 1 ==> Transferred(r, r3, 1)
    ensures Count(r) == 1 ==> Transferred(r, r3[DSTAT := r3[DSTAT].(b6 := false)], 1)
  {
    hide Bits.Value, Low4, At;
    assert r3[DSTAT] == r[DSTAT];
  }

  lemma TransferredKeeps(r: RegFile, r': RegFile, n: nat)
    requires n <= Count(r) && Transferred(r, r', n)
    ensures Count(r') == Count(r) - n
  {
  }

  lemma StartsStill(host: HostBus, w: World, r: RegFile, unmapped: byte)
    ensures Transferred(r, r, 0) && BurstCycles(r, 0) == 0
    ensures Copied(host, w, r, 0, unmapped) == w
  {
    hide Address, Bits.Value;
    AtNext(AddressAt(r, SAR0L), Source(r), 0);
    AtNext(AddressAt(r, DAR0L), Destination(r), 0);
    CrossingsNext(AddressAt(r, SAR0L), Source(r), 0);
    CrossingsNext(AddressAt(r, DAR0L), Destination(r), 0);
  }

  lemma SameAddress1(r: RegFile, r': RegFile)
    requires forall i :: MAR1L <= i < MAR1L + 3 ==> r'[i] == r[i]
    ensures AddressAt(r', MAR1L) == AddressAt(r, MAR1L)
  {
  }

  lemma SameCount1(r: RegFile, r': RegFile)
    requires forall i :: BCR1L <= i < BCR1L + 2 ==> r'[i] == r[i]
    ensures Count1(r') == Count1(r)
  {
  }

  lemma PassedKeeps(r: RegFile, r': RegFile, n: nat)
    requires n <= Count1(r) && Passed(r, r', n)
    ensures Count1(r') == Count1(r) - n
    ensures forall port :: InsideWindow(r', port) == InsideWindow(r, port)
  {
  }

  lemma PortStartsStill(host: HostBus, w: World, r: RegFile, unmapped: byte)
    ensures Passed(r, r, 0) && PortCycles(r, 0) == 0 && Carried(host, w, r, 0, unmapped) == w
  {
    hide Address, Bits.Value;
    AtNext(AddressAt(r, MAR1L), Along(r), 0);
    CrossingsNext(AddressAt(r, MAR1L), Along(r), 0);
  }
}
