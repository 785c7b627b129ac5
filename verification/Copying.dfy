/**
 Byte-by-byte copies between memory and ports: what the DMA controller and the block instructions do. A byte is
 read from the flat address space, from an address that is left to the host bus, or from a port, and likewise
 written. The host bus is arbitrary; its calls succeed.
 */
module Copying {
  import opened Basics
  import Machine
  import opened PhysicalMemory

  type Access = Machine.BusAccess

  /** What the host bus answers to the last of the calls it has had. */
  type HostBus = seq<Access> -> byte

  /** The flat address space and the calls that the host bus has had. */
  datatype World = World(cells: seq<Cell>, calls: seq<Access>)
  {
    function Called(access: Access): World {
      this.(calls := calls + [access])
    }
  }

  /** Where a byte comes from or goes to. */
  datatype End = AtMemory(address: nat) | AtPort(port: nat)

  /** What a guest load sees. `unmapped` is the byte of addresses that nothing answers. */
  function Load(m: seq<Cell>, a: nat, unmapped: byte): byte {
    if a < |m| && m[a].RamCell? then m[a].value
    else if a < |m| && m[a].RomCell? then m[a].value
    else unmapped
  }

  /** What a guest store leaves: only RAM changes. */
  function Stored(m: seq<Cell>, a: nat, value: byte): (r: seq<Cell>)
    ensures |r| == |m|
  {
    if a < |m| && m[a].RamCell? then m[a := RamCell(value)] else m
  }

  /** The address is not left to the host bus. */
  predicate Local(m: seq<Cell>, a: nat) {
    a < |m| ==> m[a] != BusCell
  }

  /** Takes a byte. */
  function Take(host: HostBus, w: World, from: End, unmapped: byte): (r: (byte, World))
    ensures r.1.cells == w.cells
  {
    match from
    case AtMemory(a) =>
      if Local(w.cells, a) then (Load(w.cells, a, unmapped), w)
      else (host(w.calls + [Machine.MemRead(a)]), w.Called(Machine.MemRead(a)))
    case AtPort(p) => (host(w.calls + [Machine.IoRead(p)]), w.Called(Machine.IoRead(p)))
  }

  /** Gives a byte away. */
  function Give(w: World, into: End, value: byte): (r: World)
    ensures |r.cells| == |w.cells|
  {
    match into
    case AtMemory(a) =>
      if Local(w.cells, a) then w.(cells := Stored(w.cells, a, value))
      else w.Called(Machine.MemWrite(a, value))
    case AtPort(p) => w.Called(Machine.IoWrite(p, value))
  }

  /** Moves one byte. */
  function Moved(host: HostBus, w: World, from: End, into: End, unmapped: byte): (r: World)
    ensures |r.cells| == |w.cells|
  {
    var (value, w') := Take(host, w, from, unmapped);
    Give(w', into, value)
  }

  /** From local memory into RAM. */
  lemma MovedToRam(host: HostBus, w: World, a: nat, b: nat, unmapped: byte)
    requires Local(w.cells, a) && b < |w.cells| && w.cells[b].RamCell?
    ensures Moved(host, w, AtMemory(a), AtMemory(b), unmapped)
         == w.(cells := w.cells[b := RamCell(Load(w.cells, a, unmapped))])
  {
  }

  /** From local memory to an address of the host bus. */
  lemma MovedToBus(host: HostBus, w: World, a: nat, b: nat, unmapped: byte)
    requires Local(w.cells, a) && b < |w.cells| && w.cells[b] == BusCell
    ensures Moved(host, w, AtMemory(a), AtMemory(b), unmapped)
         == World(w.cells, w.calls + [Machine.MemWrite(b, Load(w.cells, a, unmapped))])
  {
  }

  /** From an address of the host bus into RAM. */
  lemma MovedFromBus(host: HostBus, w: World, a: nat, b: nat, unmapped: byte)
    requires a < |w.cells| && w.cells[a] == BusCell && b < |w.cells| && w.cells[b].RamCell?
    ensures var calls := w.calls + [Machine.MemRead(a)];
            Moved(host, w, AtMemory(a), AtMemory(b), unmapped) == World(w.cells[b := RamCell(host(calls))], calls)
  {
  }

  lemma MovedElsewhere(host: HostBus, w: World, from: End, into: End, unmapped: byte, a: nat)
    requires a < |w.cells| && into != AtMemory(a)
    ensures Moved(host, w, from, into, unmapped).cells[a] == w.cells[a]
  {
  }

  lemma RamIsLocal(m: seq<Cell>, a: nat, unmapped: byte)
    requires a < |m| && m[a].RamCell?
    ensures Local(m, a) && Load(m, a, unmapped) == m[a].value
  {
  }

  /** Copies byte by byte, each byte as it is when its turn comes. */
  function OrderedCopy(host: HostBus, w: World, from: seq<End>, into: seq<End>, unmapped: byte): (r: World)
    requires |from| == |into|
    ensures |r.cells| == |w.cells|
    decreases |from|
  {
    if from == [] then w
    else
      var last := |from| - 1;
      Moved(host, OrderedCopy(host, w, from[..last], into[..last], unmapped), from[last], into[last], unmapped)
  }

  /** One more byte. */
  lemma CopyOneMore(host: HostBus, w: World, from: seq<End>, into: seq<End>, a: End, b: End, unmapped: byte)
    requires |from| == |into|
    ensures OrderedCopy(host, w, from + [a], into + [b], unmapped)
         == Moved(host, OrderedCopy(host, w, from, into, unmapped), a, b, unmapped)
  {
    assert (from + [a])[..|from|] == from && (into + [b])[..|into|] == into;
  }

  /** What a copy does not write to, it leaves alone; nor does it change what is RAM, or anything but RAM. */
  lemma {:induction false} CopyKeeps(host: HostBus, w: World, from: seq<End>, into: seq<End>, unmapped: byte,
                                     a: nat)
    requires |from| == |into| && a < |w.cells|
    ensures var r := OrderedCopy(host, w, from, into, unmapped);
            && (AtMemory(a) !in into || !w.cells[a].RamCell? ==> r.cells[a] == w.cells[a])
            && (r.cells[a].RamCell? <==> w.cells[a].RamCell?)
    decreases |from|
  {
    if from != [] {
      var last := |from| - 1;
      CopyKeeps(host, w, from[..last], into[..last], unmapped, a);
      assert AtMemory(a) in into[..last] ==> AtMemory(a) in into;
    }
  }

  /** So what is loaded from an address that the copy cannot change stays the same. */
  predicate Spared(m: seq<Cell>, a: nat, into: seq<End>) {
    AtMemory(a) !in into || (a < |m| ==> !m[a].RamCell?)
  }

  lemma SparedStays(host: HostBus, w: World, from: seq<End>, into: seq<End>, unmapped: byte, a: nat)
    requires |from| == |into| && Spared(w.cells, a, into)
    ensures var r := OrderedCopy(host, w, from, into, unmapped);
            && Load(r.cells, a, unmapped) == Load(w.cells, a, unmapped)
            && (Local(r.cells, a) <==> Local(w.cells, a))
  {
    if a < |w.cells| {
      CopyKeeps(host, w, from, into, unmapped, a);
    }
  }

  /** Where no byte is read after it has been overwritten, and none is written twice, the destination ends
      up with what the source held at the start. */
  lemma {:induction false} CopyMoves(host: HostBus, w: World, from: seq<End>, into: seq<End>, unmapped: byte,
                                     i: nat)
    requires |from| == |into| && i < |from|
    requires from[i].AtMemory? && Local(w.cells, from[i].address)
    requires into[i].AtMemory? && into[i].address < |w.cells| && w.cells[into[i].address].RamCell?
    requires forall j, k :: 0 <= j < k < |from| ==> into[j] != into[k] && from[k] != into[j]
    ensures OrderedCopy(host, w, from, into, unmapped).cells[into[i].address]
         == RamCell(Load(w.cells, from[i].address, unmapped))
    decreases |from|
  {
    hide Moved, Local, Load;
    var last := |from| - 1;
    var before := OrderedCopy(host, w, from[..last], into[..last], unmapped);
    CopyKeeps(host, w, from[..last], into[..last], unmapped, into[i].address);
    if i < last {
      CopyMoves(host, w, from[..last], into[..last], unmapped, i);
      MovedElsewhere(host, before, from[last], into[last], unmapped, into[i].address);
    } else {
      assert from[last] !in into[..last];
      SparedStays(host, w, from[..last], into[..last], unmapped, from[last].address);
      MovedToRam(host, before, from[last].address, into[last].address, unmapped);
    }
  }

  /** Where every byte is read from the place just written, the first byte fills the whole destination. */
  lemma {:induction false} CopyFills(host: HostBus, w: World, from: seq<End>, into: seq<End>, unmapped: byte,
                                     i: nat)
    requires |from| == |into| && i < |from|
    requires from[0].AtMemory? && Local(w.cells, from[0].address)
    requires forall k :: 0 <= k < |into| ==>
               into[k].AtMemory? && into[k].address < |w.cells| && w.cells[into[k].address].RamCell?
    requires forall k :: 0 < k < |from| ==> from[k] == into[k - 1]
    requires forall j, k :: 0 <= j < k < |into| ==> into[j] != into[k]
    ensures OrderedCopy(host, w, from, into, unmapped).cells[into[i].address]
         == RamCell(Load(w.cells, from[0].address, unmapped))
    decreases |from|
  {
    hide Moved, Local, Load;
    var last := |from| - 1;
    var before := OrderedCopy(host, w, from[..last], into[..last], unmapped);
    CopyKeeps(host, w, from[..last], into[..last], unmapped, into[last].address);
    if last > 0 {
      CopyFills(host, w, from[..last], into[..last], unmapped, last - 1);
      if i < last {
        CopyFills(host, w, from[..last], into[..last], unmapped, i);
      }
      assert from[last] == into[last - 1];
      RamIsLocal(before.cells, from[last].address, unmapped);
    }
    assert last == 0 ==> before == w;
    MovedToRam(host, before, from[last].address, into[last].address, unmapped);
    assert i < last ==> into[i] != into[last];
  }

  /** A port is told the bytes of local memory in order, and memory stays as it is. */
  lemma {:induction false} PortHears(host: HostBus, w: World, from: seq<End>, into: seq<End>, unmapped: byte,
                                     port: nat)
    requires |from| == |into|
    requires forall k :: 0 <= k < |from| ==>
               from[k].AtMemory? && Local(w.cells, from[k].address) && into[k] == AtPort(port)
    ensures var r := OrderedCopy(host, w, from, into, unmapped);
            && r.cells == w.cells
            && r.calls == w.calls + seq(|from|, k requires 0 <= k < |from| =>
                 assert from[k].AtMemory?;
                 Machine.IoWrite(port, Load(w.cells, from[k].address, unmapped)))
    decreases |from|
  {
    if from != [] {
      PortHears(host, w, from[..|from| - 1], into[..|from| - 1], unmapped, port);
    }
  }

  /** Byte `i` that a port answers is stored in RAM at place `i`, if no place is written twice. */
  lemma {:induction false} PortFills(host: HostBus, w: World, from: seq<End>, into: seq<End>, unmapped: byte,
                                     port: nat, i: nat)
    requires |from| == |into| && i < |from|
    requires forall k :: 0 <= k < |from| ==> from[k] == AtPort(port)
    requires forall k :: 0 <= k < |into| ==>
               into[k].AtMemory? && into[k].address < |w.cells| && w.cells[into[k].address].RamCell?
    requires forall j, k :: 0 <= j < k < |into| ==> into[j] != into[k]
    ensures var r := OrderedCopy(host, w, from, into, unmapped);
            && r.calls == w.calls + seq(|from|, _ => Machine.IoRead(port))
            && r.cells[into[i].address] == RamCell(host(w.calls + seq(i + 1, _ => Machine.IoRead(port))))
    decreases |from|
  {
    var last := |from| - 1;
    CopyKeeps(host, w, from[..last], into[..last], unmapped, into[last].address);
    var before := OrderedCopy(host, w, from[..last], into[..last], unmapped);
    if last > 0 {
      PortFills(host, w, from[..last], into[..last], unmapped, port, if i < last then i else 0);
    }
    assert before.calls + [Machine.IoRead(port)] == w.calls + seq(last + 1, _ => Machine.IoRead(port));
    if i < last {
      assert into[i] != into[last];
    }
  }

  // -------------------------------------------------------------------------- through the page table

  /** The host bus, as the machine calls it. */
  class Bus {
    const host: HostBus
    var calls: seq<Access>

    constructor (host: HostBus)
      ensures this.host == host && calls == []
    {
      this.host, this.calls := host, [];
    }

    method Call(access: Access) returns (answer: byte)
      modifies `calls
      ensures calls == old(calls) + [access] && answer == host(calls)
    {
      calls := calls + [access];
      answer := host(calls);
    }
  }

  /** The whole flat address space of a memory. */
  ghost function Flat(memory: Memory): (m: seq<Cell>)
    requires memory.Valid()
    reads memory
    ensures |m| == memory.physicalSize
    ensures forall a :: 0 <= a < |m| ==> m[a] == memory.CellAt(a)
  {
    seq(memory.physicalSize, a requires memory.Valid() && 0 <= a < memory.physicalSize reads memory =>
      memory.CellAt(a))
  }

  ghost function WorldOf(bus: Bus, memory: Memory): (w: World)
    requires memory.Valid()
    reads bus`calls, memory
  {
    World(Flat(memory), bus.calls)
  }

  /** `emulation_mem_read`. */
  method Fetch(bus: Bus, memory: Memory, phys: nat) returns (value: byte)
    requires memory.Valid()
    modifies bus`calls
    ensures (value, WorldOf(bus, memory))
         == Take(bus.host, old(WorldOf(bus, memory)), AtMemory(phys), memory.unmappedRead)
  {
    var r := memory.Read(phys);
    match r {
      case Byte(b) => value := b;
      case AskBus => value := bus.Call(Machine.MemRead(phys));
    }
  }

  /** `emulation_mem_write`. */
  method Put(bus: Bus, memory: Memory, phys: nat, value: byte)
    requires memory.Valid()
    modifies bus`calls, memory`ramStores
    ensures memory.Valid()
    ensures WorldOf(bus, memory) == Give(old(WorldOf(bus, memory)), AtMemory(phys), value)
  {
    var toBus, romWrite := memory.Write(phys, value);
    if toBus {
      var ignored := bus.Call(Machine.MemWrite(phys, value));
    }
    assert Flat(memory) == Stored(old(Flat(memory)), phys, value);
  }

  /** `dma_io_read`, of a port outside the window of the internal registers. */
  method Hear(bus: Bus, memory: Memory, port: nat) returns (value: byte)
    requires memory.Valid()
    modifies bus`calls
    ensures (value, WorldOf(bus, memory))
         == Take(bus.host, old(WorldOf(bus, memory)), AtPort(port), memory.unmappedRead)
  {
    value := bus.Call(Machine.IoRead(port));
  }

  /** `dma_io_write`, likewise. */
  method Tell(bus: Bus, memory: Memory, port: nat, value: byte)
    requires memory.Valid()
    modifies bus`calls
    ensures WorldOf(bus, memory) == Give(old(WorldOf(bus, memory)), AtPort(port), value)
  {
    var ignored := bus.Call(Machine.IoWrite(port, value));
  }
}
