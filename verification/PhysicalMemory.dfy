/**
 Physical memory (memory.rs): a page table that points into recycled RAM and ROM stores, and the flat
 address space it stands for.
 */
module PhysicalMemory {
  import opened Basics

  const PAGE_SIZE: nat := 4096
  const WORD_LIMIT: nat := 0x1_0000_0000  // addresses and sizes are 32 bits wide

  datatype Page =
    | Unmapped
    | Ram(store: nat, offset: nat)
    | Rom(store: nat, offset: nat)
    | External

  datatype RegionKind = RamRegion | RomRegion(data: seq<byte>) | ExternalRegion

  datatype RegionDef = RegionDef(base: nat, size: nat, kind: RegionKind)

  datatype ConfigError =
    | InvalidPhysicalAddressBits(bits: nat)
    | UnalignedRegion(base: nat, size: nat)
    | RegionOutOfRange(base: nat, size: nat)
    | OverlappingRegion(base: nat, size: nat)
    | RomSizeMismatch(regionSize: nat, dataSize: nat)

  /** What the flat address space holds at one address. */
  datatype Cell = RamCell(value: byte) | RomCell(value: byte) | BusCell | NoCell

  /** The answer of a guest read: a byte, or the host bus has to be asked. */
  datatype Fetched = Byte(value: byte) | AskBus

  type Stores = seq<Option<seq<byte>>>

  predicate Holds(stores: Stores, store: nat, offset: nat) {
    && store < |stores| && stores[store].Some?
    && offset + PAGE_SIZE <= |stores[store].value|
  }

  predicate Backed(page: Page, ram: Stores, rom: Stores) {
    match page
    case Ram(store, offset) => Holds(ram, store, offset) && offset % PAGE_SIZE == 0
    case Rom(store, offset) => Holds(rom, store, offset) && offset % PAGE_SIZE == 0
    case External => true
    case Unmapped => true
  }

  predicate AllBacked(pages: seq<Page>, ram: Stores, rom: Stores) {
    forall i {:trigger Backed(pages[i], ram, rom)} :: 0 <= i < |pages| ==> Backed(pages[i], ram, rom)
  }

  /** No two RAM pages share storage. */
  predicate NoAlias(pages: seq<Page>) {
    forall i, k :: 0 <= i < k < |pages| && pages[i].Ram? ==> pages[i] != pages[k]
  }

  function PageCell(page: Page, ram: Stores, rom: Stores, inPage: nat): Cell
    requires Backed(page, ram, rom) && inPage < PAGE_SIZE
  {
    match page
    case Ram(store, offset) => RamCell(ram[store].value[offset + inPage])
    case Rom(store, offset) => RomCell(rom[store].value[offset + inPage])
    case External => BusCell
    case Unmapped => NoCell
  }

  /** A fresh region reads as zeros if it is RAM, as its data if it is ROM, and otherwise the bus answers. */
  ghost predicate IsFresh(kind: RegionKind, at: nat, cell: Cell) {
    match kind
    case RamRegion => cell == RamCell(0)
    case RomRegion(data) => at < |data| && cell == RomCell(data[at])
    case ExternalRegion => cell == BusCell
  }

  function NewCell(kind: RegionKind, at: nat): Cell
    requires kind.RomRegion? ==> at < |kind.data|
  {
    match kind
    case RamRegion => RamCell(0)
    case RomRegion(data) => RomCell(data[at])
    case ExternalRegion => BusCell
  }

  /** Page `k` of a region whose first page is `page`. */
  function PageOf(page: Page, k: nat): Page {
    match page
    case Ram(store, offset) => Ram(store, offset + k * PAGE_SIZE)
    case Rom(store, offset) => Rom(store, offset + k * PAGE_SIZE)
    case External => External
    case Unmapped => Unmapped
  }

  /** Some page points into store `s`. */
  predicate Referenced(pages: seq<Page>, ram: bool, s: nat) {
    exists i :: 0 <= i < |pages| && (if ram then pages[i].Ram? else pages[i].Rom?) && pages[i].store == s
  }

  /** `s` after dropping the stores that no page points into. */
  predicate Reclaimed(before: Stores, after: Stores, pages: seq<Page>, ram: bool) {
    && |after| == |before|
    && forall s :: 0 <= s < |before| ==>
         after[s] == if Referenced(pages, ram, s) then before[s] else None
  }

  /** The flat address space a page table and its stores stand for. */
  function FlatCell(pages: seq<Page>, ram: Stores, rom: Stores, a: nat): Cell
    requires AllBacked(pages, ram, rom) && a < |pages| * PAGE_SIZE
  {
    assert Backed(pages[a / PAGE_SIZE], ram, rom);
    PageCell(pages[a / PAGE_SIZE], ram, rom, a % PAGE_SIZE)
  }

  /** Dropping unreferenced stores changes no address. */
  lemma ReclaimKeepsCells(pages: seq<Page>, ram: Stores, rom: Stores, ram': Stores, rom': Stores)
    requires AllBacked(pages, ram, rom)
    requires Reclaimed(ram, ram', pages, true) && Reclaimed(rom, rom', pages, false)
    ensures AllBacked(pages, ram', rom')
    ensures forall a :: 0 <= a < |pages| * PAGE_SIZE ==>
              FlatCell(pages, ram', rom', a) == FlatCell(pages, ram, rom, a)
  {
    forall i | 0 <= i < |pages|
      ensures Backed(pages[i], ram, rom) && Backed(pages[i], ram', rom')
      ensures pages[i].Ram? ==> ram'[pages[i].store] == ram[pages[i].store]
      ensures pages[i].Rom? ==> rom'[pages[i].store] == rom[pages[i].store]
    {
      assert Backed(pages[i], ram, rom);
      if pages[i].Ram? {
        assert Referenced(pages, true, pages[i].store);
      } else if pages[i].Rom? {
        assert Referenced(pages, false, pages[i].store);
      }
    }
  }

  /** Storing a byte through one RAM page changes that address only: pages do not share storage. */
  lemma WriteChangesOne(pages: seq<Page>, ram: Stores, rom: Stores, phys: nat, value: byte)
    requires AllBacked(pages, ram, rom) && NoAlias(pages) && phys < |pages| * PAGE_SIZE
    requires pages[phys / PAGE_SIZE].Ram? && Backed(pages[phys / PAGE_SIZE], ram, rom)
    ensures var page := pages[phys / PAGE_SIZE];
            var bytes := ram[page.store].value;
            var ram' := ram[page.store := Some(bytes[page.offset + phys % PAGE_SIZE := value])];
            && AllBacked(pages, ram', rom)
            && forall a :: 0 <= a < |pages| * PAGE_SIZE ==>
                 FlatCell(pages, ram', rom, a)
                 == if a == phys then RamCell(value) else FlatCell(pages, ram, rom, a)
  {
    var page := pages[phys / PAGE_SIZE];
    var bytes := ram[page.store].value;
    var ram' := ram[page.store := Some(bytes[page.offset + phys % PAGE_SIZE := value])];
    forall i | 0 <= i < |pages|
      ensures Backed(pages[i], ram', rom)
    {
      assert Backed(pages[i], ram, rom);
    }
    forall a | 0 <= a < |pages| * PAGE_SIZE
      ensures FlatCell(pages, ram', rom, a)
           == if a == phys then RamCell(value) else FlatCell(pages, ram, rom, a)
    {
      var other := pages[a / PAGE_SIZE];
      assert Backed(other, ram, rom) && Backed(other, ram', rom);
      if a / PAGE_SIZE != phys / PAGE_SIZE && other.Ram? && other.store == page.store {
        assert other.offset != page.offset;
      }
    }
  }

  /** The first free slot, or one past the end. */
  method FindSlot(stores: Stores) returns (index: nat)
    ensures index <= |stores|
    ensures index < |stores| ==> stores[index] == None
    ensures forall k :: 0 <= k < index ==> stores[k] != None
  {
    index := 0;
    while index < |stores| && stores[index] != None
      invariant index <= |stores|
      invariant forall k :: 0 <= k < index ==> stores[k] != None
    {
      index := index + 1;
    }
  }

  /** `next` is `stores` with `bytes` put into its first free slot, or appended if none is free. */
  predicate Inserted(stores: Stores, next: Stores, index: nat, bytes: seq<byte>) {
    && index <= |stores| && (forall k :: 0 <= k < index ==> stores[k] != None)
    && (index < |stores| ==> stores[index] == None)
    && |next| == Max(|stores|, index + 1) && next[index] == Some(bytes)
    && forall k :: 0 <= k < |stores| && k != index ==> next[k] == stores[k]
  }

  function FreshBytes(kind: RegionKind, size: nat): seq<byte> {
    if kind.RomRegion? then kind.data else seq(size, _ => 0)
  }

  /** The stores and first page for a new region of this kind. */
  predicate Prepared(ram: Stores, rom: Stores, ram': Stores, rom': Stores, kind: RegionKind,
                     size: nat, page: Page)
  {
    match kind
    case RamRegion =>
      page.Ram? && page.offset == 0 && rom' == rom
      && Inserted(ram, ram', page.store, FreshBytes(kind, size))
    case RomRegion(_) =>
      page.Rom? && page.offset == 0 && ram' == ram
      && Inserted(rom, rom', page.store, FreshBytes(kind, size))
    case ExternalRegion => page == External && ram' == ram && rom' == rom
  }

  /** A page of the old table keeps its contents, and does not point into the new store. */
  lemma OldPagesKept(page: Page, ram: Stores, rom: Stores, ram': Stores, rom': Stores,
                     kind: RegionKind, size: nat, created: Page)
    requires Backed(page, ram, rom) && Prepared(ram, rom, ram', rom', kind, size, created)
    ensures Backed(page, ram', rom')
    ensures forall k :: 0 <= k < PAGE_SIZE ==> PageCell(page, ram', rom', k) == PageCell(page, ram, rom, k)
    ensures page.Ram? && created.Ram? ==> page.store != created.store
  {
  }

  lemma NewPagesBacked(k: nat, count: nat, ram: Stores, rom: Stores, ram': Stores, rom': Stores,
                       kind: RegionKind, size: nat, created: Page)
    requires Prepared(ram, rom, ram', rom', kind, size, created) && size == count * PAGE_SIZE && k < count
    requires kind.RomRegion? ==> |kind.data| == size
    ensures Backed(PageOf(created, k), ram', rom')
    ensures forall i :: 0 <= i < PAGE_SIZE ==>
              PageCell(PageOf(created, k), ram', rom', i) == NewCell(kind, k * PAGE_SIZE + i)
  {
  }

  /** Pointing a range of pages into a new store gives that range fresh contents and leaves every other
      address, and the absence of aliasing, as it was. */
  lemma RegionMapped(pages: seq<Page>, ram: Stores, rom: Stores, ram': Stores, rom': Stores,
                     kind: RegionKind, first: nat, count: nat, page: Page)
    requires AllBacked(pages, ram, rom) && NoAlias(pages) && first + count <= |pages|
    requires Prepared(ram, rom, ram', rom', kind, count * PAGE_SIZE, page)
    requires kind.RomRegion? ==> |kind.data| == count * PAGE_SIZE
    ensures var next := Replaced(pages, first, count, page);
            && AllBacked(next, ram', rom') && NoAlias(next)
            && forall a :: 0 <= a < |pages| * PAGE_SIZE ==>
                 FlatCell(next, ram', rom', a)
                 == if first * PAGE_SIZE <= a < (first + count) * PAGE_SIZE
                    then NewCell(kind, a - first * PAGE_SIZE) else FlatCell(pages, ram, rom, a)
  {
    var next := Replaced(pages, first, count, page);
    var size := count * PAGE_SIZE;
    forall i | 0 <= i < |pages|
      ensures Backed(next[i], ram', rom')
    {
      if first <= i < first + count {
        NewPagesBacked(i - first, count, ram, rom, ram', rom', kind, size, page);
      } else {
        assert Backed(pages[i], ram, rom);
        OldPagesKept(pages[i], ram, rom, ram', rom', kind, size, page);
      }
    }
    forall i, k | 0 <= i < k < |pages| && next[i].Ram?
      ensures next[i] != next[k]
    {
      assert Backed(pages[i], ram, rom) && Backed(pages[k], ram, rom);
      OldPagesKept(pages[i], ram, rom, ram', rom', kind, size, page);
      OldPagesKept(pages[k], ram, rom, ram', rom', kind, size, page);
    }
    forall a | 0 <= a < |pages| * PAGE_SIZE
      ensures FlatCell(next, ram', rom', a)
           == if first * PAGE_SIZE <= a < (first + count) * PAGE_SIZE
              then NewCell(kind, a - first * PAGE_SIZE) else FlatCell(pages, ram, rom, a)
    {
      var i := a / PAGE_SIZE;
      assert Backed(next[i], ram', rom');
      if first <= i < first + count {
        NewPagesBacked(i - first, count, ram, rom, ram', rom', kind, size, page);
      } else {
        assert Backed(pages[i], ram, rom);
        OldPagesKept(pages[i], ram, rom, ram', rom', kind, size, page);
      }
    }
  }

  /** `insert_store`. */
  method InsertStore(stores: Stores, bytes: seq<byte>) returns (next: Stores, index: nat)
    ensures Inserted(stores, next, index, bytes)
  {
    index := FindSlot(stores);
    next := if index < |stores| then stores[index := Some(bytes)] else stores + [Some(bytes)];
  }

  /** `1 << bits`. */
  function SpaceSize(bits: nat): nat
    requires 20 <= bits <= 24
  {
    match bits
    case 20 => 0x10_0000
    case 21 => 0x20_0000
    case 22 => 0x40_0000
    case 23 => 0x80_0000
    case _ => 0x100_0000
  }

  predicate Covers(region: RegionDef, a: nat) {
    region.base <= a < region.base + region.size
  }

  /** What the regions make of address `a`: the last one that covers it decides. */
  function Configured(regions: seq<RegionDef>, a: nat): Cell {
    if regions == [] then NoCell
    else
      var last := regions[|regions| - 1];
      if Covers(last, a) && (last.kind.RomRegion? ==> a - last.base < |last.kind.data|)
      then NewCell(last.kind, a - last.base)
      else Configured(regions[..|regions| - 1], a)
  }

  // -------------------------------------------------------------------------- which regions can be mapped

  /** The region is aligned, inside the space, and has its bytes if it is ROM. */
  predicate Fits(region: RegionDef, size: nat) {
    && region.base % PAGE_SIZE == 0 && region.size % PAGE_SIZE == 0
    && region.base + region.size <= size
    && (region.kind.RomRegion? ==> |region.kind.data| == region.size)
  }

  /** The regions have an address in common. */
  predicate Overlaps(a: RegionDef, b: RegionDef) {
    0 < a.size && 0 < b.size && a.base < b.base + b.size && b.base < a.base + a.size
  }

  /** Every region fits and no two have an address in common. */
  ghost predicate Mappable(regions: seq<RegionDef>, size: nat) {
    && (forall i :: 0 <= i < |regions| ==> Fits(regions[i], size))
    && (forall i, k :: 0 <= i < k < |regions| ==> !Overlaps(regions[i], regions[k]))
  }

  /** What is wrong with a region that comes after `before`. */
  function RegionError(before: seq<RegionDef>, region: RegionDef, size: nat): Option<ConfigError> {
    if region.base % PAGE_SIZE != 0 || region.size % PAGE_SIZE != 0 then
      Some(UnalignedRegion(region.base, region.size))
    else if region.base + region.size > size then Some(RegionOutOfRange(region.base, region.size))
    else if region.kind.RomRegion? && |region.kind.data| != region.size then
      Some(RomSizeMismatch(region.size, |region.kind.data|))
    else if exists k :: 0 <= k < |before| && Overlaps(before[k], region) then
      Some(OverlappingRegion(region.base, region.size))
    else None
  }

  /** The error of the first region that cannot be mapped. */
  function FirstError(regions: seq<RegionDef>, size: nat): Option<ConfigError> {
    if regions == [] then None
    else
      var before := regions[..|regions| - 1];
      match FirstError(before, size)
      case Some(error) => Some(error)
      case None => RegionError(before, regions[|regions| - 1], size)
  }

  /** There is no error exactly when all the regions can be mapped together. */
  lemma {:induction false} NoErrorIff(regions: seq<RegionDef>, size: nat)
    ensures FirstError(regions, size) == None <==> Mappable(regions, size)
    decreases |regions|
  {
    if regions != [] {
      var (before, last) := (regions[..|regions| - 1], regions[|regions| - 1]);
      NoErrorIff(before, size);
      assert forall k :: 0 <= k < |before| ==> before[k] == regions[k];
      if Mappable(before, size) && RegionError(before, last, size) == None {
        forall i, k | 0 <= i < k < |regions|
          ensures !Overlaps(regions[i], regions[k])
        {
          assert k < |before| ==> !Overlaps(before[i], before[k]);
        }
      }
    }
  }

  lemma {:induction false} ErrorStays(regions: seq<RegionDef>, size: nat, i: nat)
    requires i <= |regions| && FirstError(regions[..i], size).Some?
    ensures FirstError(regions, size) == FirstError(regions[..i], size)
    decreases |regions|
  {
    if i == |regions| {
      assert regions[..i] == regions;
    } else {
      var before := regions[..|regions| - 1];
      assert before[..i] == regions[..i];
      ErrorStays(before, size, i);
    }
  }

  /** Where regions that fit have contents: on the addresses they cover. */
  lemma {:induction false} ConfiguredIff(regions: seq<RegionDef>, size: nat, a: nat)
    requires forall i :: 0 <= i < |regions| ==> Fits(regions[i], size)
    ensures Configured(regions, a) != NoCell
       <==> exists k :: 0 <= k < |regions| && Covers(regions[k], a)
    decreases |regions|
  {
    if regions != [] {
      var (before, last) := (regions[..|regions| - 1], regions[|regions| - 1]);
      assert forall k :: 0 <= k < |before| ==> before[k] == regions[k];
      ConfiguredIff(before, size, a);
      if Covers(last, a) {
        assert Covers(regions[|regions| - 1], a);
      }
    }
  }

  /** What a region puts there. */
  lemma {:induction false} ConfiguredAt(regions: seq<RegionDef>, size: nat, a: nat, k: nat)
    requires Mappable(regions, size) && k < |regions| && Covers(regions[k], a)
    ensures a < size && IsFresh(regions[k].kind, a - regions[k].base, Configured(regions, a))
    decreases |regions|
  {
    var (before, last) := (regions[..|regions| - 1], |regions| - 1);
    assert Fits(regions[k], size) && Fits(regions[last], size);
    if k < last {
      assert forall i :: 0 <= i < last ==> before[i] == regions[i];
      ConfiguredAt(before, size, a, k);
      assert !Overlaps(regions[k], regions[last]);
    }
  }

  /** Page `p` is taken. */
  predicate Taken(regions: seq<RegionDef>, p: nat) {
    exists k :: 0 <= k < |regions| && Covers(regions[k], p * PAGE_SIZE)
  }

  /** A region that fits overlaps one of the others exactly when one of its pages is taken. */
  lemma OverlapTakesPage(regions: seq<RegionDef>, region: RegionDef, size: nat)
    requires Fits(region, size) && forall i :: 0 <= i < |regions| ==> Fits(regions[i], size)
    ensures (exists p :: region.base / PAGE_SIZE <= p < (region.base + region.size) / PAGE_SIZE
                      && Taken(regions, p))
       <==> exists k :: 0 <= k < |regions| && Overlaps(regions[k], region)
  {
    if p :| region.base / PAGE_SIZE <= p < (region.base + region.size) / PAGE_SIZE && Taken(regions, p) {
      var k :| 0 <= k < |regions| && Covers(regions[k], p * PAGE_SIZE);
      assert Overlaps(regions[k], region);
    }
    if k :| 0 <= k < |regions| && Overlaps(regions[k], region) {
      var p := Max(regions[k].base, region.base) / PAGE_SIZE;
      assert Covers(regions[k], p * PAGE_SIZE);
      assert Taken(regions, p);
    }
  }

  class Memory {
    var pages: seq<Page>
    var ramStores: Stores
    var romStores: Stores
    var unmappedRead: byte
    var physicalSize: nat

    ghost predicate Valid()
      reads this
    {
      && physicalSize == |pages| * PAGE_SIZE <= WORD_LIMIT
      && AllBacked(pages, ramStores, romStores)
      && NoAlias(pages)
    }

    /** The flat address space. */
    ghost function CellAt(phys: nat): Cell
      requires Valid() && phys < physicalSize
      reads this
    {
      FlatCell(pages, ramStores, romStores, phys)
    }

    // --------------------------------------------------------------------------------- construction

    constructor (physicalSize: nat, unmappedRead: byte)
      requires physicalSize % PAGE_SIZE == 0 && physicalSize <= WORD_LIMIT
      ensures Valid() && this.physicalSize == physicalSize && this.unmappedRead == unmappedRead
      ensures forall a :: 0 <= a < physicalSize ==> CellAt(a) == NoCell
    {
      this.pages := seq(physicalSize / PAGE_SIZE, _ => Unmapped);
      this.ramStores, this.romStores := [], [];
      this.unmappedRead, this.physicalSize := unmappedRead, physicalSize;
    }

    /** `Memory::new`: the configured regions, mapped in order, none over another. It succeeds exactly when
        the width is legal and the regions can be mapped together, and otherwise reports the error of the
        first one that cannot. */
    static method New(bits: nat, unmappedRead: byte, regions: seq<RegionDef>)
      returns (r: Result<Memory, ConfigError>)
      ensures !(20 <= bits <= 24) ==> r == Failure(InvalidPhysicalAddressBits(bits))
      ensures r.Success? <==> 20 <= bits <= 24 && Mappable(regions, SpaceSize(bits))
      ensures 20 <= bits <= 24 && r.Failure? ==> FirstError(regions, SpaceSize(bits)) == Some(r.error)
      ensures r.Success? ==>
                && fresh(r.value) && r.value.Valid() && r.value.unmappedRead == unmappedRead
                && r.value.physicalSize == SpaceSize(bits)
                && forall a :: 0 <= a < r.value.physicalSize ==>
                     r.value.CellAt(a) == Configured(regions, a)
      ensures r.Success? ==>
                && (forall a, k :: 0 <= k < |regions| && regions[k].base <= a < regions[k].base + regions[k].size ==>
                      a < r.value.physicalSize && IsFresh(regions[k].kind, a - regions[k].base, r.value.CellAt(a)))
                && (forall a :: 0 <= a < r.value.physicalSize && r.value.CellAt(a) != NoCell ==>
                      exists k :: 0 <= k < |regions| && Covers(regions[k], a))
    {
      if !(20 <= bits <= 24) {
        return Failure(InvalidPhysicalAddressBits(bits));
      }
      ghost var size := SpaceSize(bits);
      NoErrorIff(regions, size);
      var memory := new Memory(SpaceSize(bits), unmappedRead);
      var i := 0;
      while i < |regions|
        invariant 0 <= i <= |regions| && memory.Valid() && fresh(memory)
        invariant memory.unmappedRead == unmappedRead && memory.physicalSize == size
        invariant forall a :: 0 <= a < memory.physicalSize ==>
                    memory.CellAt(a) == Configured(regions[..i], a)
        invariant FirstError(regions[..i], size) == None
      {
        var region := regions[i];
        assert regions[..i + 1][..i] == regions[..i];
        memory.MapErrorIs(regions[..i], region);
        assert FirstError(regions[..i + 1], size) == RegionError(regions[..i], region, size);
        var mapped := memory.MapRegion(region.base, region.size, region.kind, false);
        if mapped.Failure? {
          ErrorStays(regions, size, i + 1);
          return Failure(mapped.error);
        }
        i := i + 1;
      }
      assert regions[..|regions|] == regions;
      forall a: nat, k | 0 <= k < |regions| && regions[k].base <= a < regions[k].base + regions[k].size
        ensures a < size && IsFresh(regions[k].kind, a - regions[k].base, memory.CellAt(a))
      {
        ConfiguredAt(regions, size, a, k);
      }
      forall a | 0 <= a < size && memory.CellAt(a) != NoCell
        ensures exists k :: 0 <= k < |regions| && Covers(regions[k], a)
      {
        ConfiguredIff(regions, size, a);
      }
      r := Success(memory);
    }

    /** On a memory configured from regions, `map_region` finds what is wrong with one more. */
    lemma MapErrorIs(regions: seq<RegionDef>, region: RegionDef)
      requires Valid() && physicalSize <= 0x100_0000 && FirstError(regions, physicalSize) == None
      requires forall a :: 0 <= a < physicalSize ==> CellAt(a) == Configured(regions, a)
      ensures MapError(region.base, region.size, region.kind, false)
           == RegionError(regions, region, physicalSize)
    {
      NoErrorIff(regions, physicalSize);
      if Fits(region, physicalSize) {
        OverlapTakesPage(regions, region, physicalSize);
        forall p | 0 <= p < |pages|
          ensures pages[p] != Unmapped <==> Taken(regions, p)
        {
          assert Backed(pages[p], ramStores, romStores);
          assert CellAt(p * PAGE_SIZE) == Configured(regions, p * PAGE_SIZE);
          ConfiguredIff(regions, physicalSize, p * PAGE_SIZE);
        }
      }
    }

    // -------------------------------------------------------------------------------- byte accesses

    /** The byte at an offset of a store, with the source's fallback. */
    function StoreByte(stores: Stores, store: nat, at: nat): byte
      reads this`unmappedRead
    {
      if store < |stores| && stores[store].Some? && at < |stores[store].value|
      then stores[store].value[at] else unmappedRead
    }

    function Peek(phys: nat): (value: byte)
      requires Valid()
      reads this
      ensures phys >= physicalSize ==> value == unmappedRead
      ensures phys < physicalSize ==>
                value == match CellAt(phys)
                         case RamCell(b) => b
                         case RomCell(b) => b
                         case BusCell => unmappedRead
                         case NoCell => unmappedRead
    {
      if phys >= physicalSize then unmappedRead
      else
        assert Backed(pages[phys / PAGE_SIZE], ramStores, romStores);
        match pages[phys / PAGE_SIZE]
        case Ram(store, offset) => StoreByte(ramStores, store, offset + phys % PAGE_SIZE)
        case Rom(store, offset) => StoreByte(romStores, store, offset + phys % PAGE_SIZE)
        case External => unmappedRead
        case Unmapped => unmappedRead
    }

    method Read(phys: nat) returns (r: Fetched)
      requires Valid()
      ensures phys >= physicalSize ==> r == Byte(unmappedRead)
      ensures phys < physicalSize ==>
                r == match CellAt(phys)
                     case RamCell(b) => Byte(b)
                     case RomCell(b) => Byte(b)
                     case BusCell => AskBus
                     case NoCell => Byte(unmappedRead)
    {
      if phys >= physicalSize {
        return Byte(unmappedRead);
      }
      assert Backed(pages[phys / PAGE_SIZE], ramStores, romStores);
      match pages[phys / PAGE_SIZE]
      case Ram(store, offset) => r := Byte(StoreByte(ramStores, store, offset + phys % PAGE_SIZE));
      case Rom(store, offset) => r := Byte(StoreByte(romStores, store, offset + phys % PAGE_SIZE));
      case External => r := AskBus;
      case Unmapped => r := Byte(unmappedRead);
    }

    /** A write changes its own address, if that is RAM, and no other. */
    method Poke(phys: nat, value: byte)
      requires Valid()
      modifies this`ramStores
      ensures Valid()
      ensures forall a :: 0 <= a < physicalSize ==>
                CellAt(a) == if a == phys && old(CellAt(a)).RamCell? then RamCell(value)
                             else old(CellAt(a))
    {
      if phys >= physicalSize {
        return;
      }
      assert Backed(pages[phys / PAGE_SIZE], ramStores, romStores);
      match pages[phys / PAGE_SIZE]
      case Ram(store, offset) =>
        var at := offset + phys % PAGE_SIZE;
        if store < |ramStores| && ramStores[store].Some? && at < |ramStores[store].value| {
          WriteChangesOne(pages, ramStores, romStores, phys, value);
          ramStores := ramStores[store := Some(ramStores[store].value[at := value])];
        }
      case Rom(_, _) =>
      case External =>
      case Unmapped =>
    }

    /** A guest write: as `Poke`, and it says whether the host bus has to be told or a ROM write be
        reported. */
    method Write(phys: nat, value: byte) returns (toBus: bool, romWrite: bool)
      requires Valid()
      modifies this`ramStores
      ensures Valid()
      ensures forall a :: 0 <= a < physicalSize ==>
                CellAt(a) == if a == phys && old(CellAt(a)).RamCell? then RamCell(value)
                             else old(CellAt(a))
      ensures toBus <==> phys < physicalSize && old(CellAt(phys)) == BusCell
      ensures romWrite <==> phys < physicalSize && old(CellAt(phys)).RomCell?
    {
      toBus, romWrite := false, false;
      if phys >= physicalSize {
        return;
      }
      assert Backed(pages[phys / PAGE_SIZE], ramStores, romStores);
      match pages[phys / PAGE_SIZE]
      case Ram(store, offset) =>
        var at := offset + phys % PAGE_SIZE;
        if store < |ramStores| && ramStores[store].Some? && at < |ramStores[store].value| {
          WriteChangesOne(pages, ramStores, romStores, phys, value);
          ramStores := ramStores[store := Some(ramStores[store].value[at := value])];
        }
      case External => toBus := true;
      case Rom(_, _) => romWrite := true;
      case Unmapped =>
    }

    // -------------------------------------------------------------------------------------- mapping

    /** Which error, if any, `map_region` reports; the order of the tests matters. */
    function MapError(base: nat, size: nat, kind: RegionKind, replace: bool): Option<ConfigError>
      reads this
    {
      if base % PAGE_SIZE != 0 || size % PAGE_SIZE != 0 then Some(UnalignedRegion(base, size))
      else if base + size >= WORD_LIMIT || base + size > physicalSize then
        Some(RegionOutOfRange(base, size))
      else if kind.RomRegion? && |kind.data| != size then Some(RomSizeMismatch(size, |kind.data|))
      else if !replace && exists i :: base / PAGE_SIZE <= i < (base + size) / PAGE_SIZE
                                   && i < |pages| && pages[i] != Unmapped then
        Some(OverlappingRegion(base, size))
      else None
    }

    /** Nothing answers at any address of the range. */
    ghost predicate Free(base: nat, size: nat)
      requires Valid()
      reads this
    {
      forall a :: base <= a < base + size && a < physicalSize ==> CellAt(a) == NoCell
    }

    /** That is so if no page of the range is mapped. */
    lemma FreeIff(base: nat, size: nat)
      requires Valid() && base % PAGE_SIZE == 0 && size % PAGE_SIZE == 0 && base + size <= physicalSize
      ensures Free(base, size)
         <==> forall i :: base / PAGE_SIZE <= i < (base + size) / PAGE_SIZE ==> pages[i] == Unmapped
    {
      hide FlatCell, Backed, NoAlias;
      if Free(base, size) {
        forall i | base / PAGE_SIZE <= i < (base + size) / PAGE_SIZE
          ensures pages[i] == Unmapped
        {
          CellIs(i * PAGE_SIZE);
          assert CellAt(i * PAGE_SIZE) == NoCell;
        }
      } else {
        var a :| base <= a < base + size && a < physicalSize && CellAt(a) != NoCell;
        CellIs(a);
      }
    }

    lemma CellIs(a: nat)
      requires Valid() && a < physicalSize
      ensures CellAt(a) == NoCell <==> pages[a / PAGE_SIZE] == Unmapped
    {
      assert Backed(pages[a / PAGE_SIZE], ramStores, romStores);
    }

    /** Map or remap a region. It succeeds exactly if the region is aligned, inside the space and has its bytes, and
        nothing is there yet unless it may be replaced. On an error nothing changes; otherwise exactly the
        addresses of the region get fresh contents of the new kind, and after a remap every store kept is in
        use. */
    method MapRegion(base: nat, size: nat, kind: RegionKind, replace: bool)
      returns (r: Result<(), ConfigError>)
      requires Valid()
      modifies this`pages, this`ramStores, this`romStores
      ensures Valid() && |pages| == |old(pages)|
      ensures r == match old(MapError(base, size, kind, replace))
                   case Some(error) => Failure(error)
                   case None => Success(())
      ensures r.Failure? ==> pages == old(pages) && ramStores == old(ramStores)
                             && romStores == old(romStores)
      ensures r.Success? ==>
                forall a :: 0 <= a < physicalSize ==>
                  CellAt(a) == if base <= a < base + size then NewCell(kind, a - base)
                               else old(CellAt(a))
      ensures r.Success? <==>
                && base % 4096 == 0 && size % 4096 == 0
                && base + size < 0x1_0000_0000 && base + size <= physicalSize
                && (kind.RomRegion? ==> |kind.data| == size)
                && (replace || old(Free(base, size)))
      ensures r.Failure? ==>
                r.error == if base % 4096 != 0 || size % 4096 != 0 then UnalignedRegion(base, size)
                           else if base + size >= 0x1_0000_0000 || base + size > physicalSize then
                             RegionOutOfRange(base, size)
                           else if kind.RomRegion? && |kind.data| != size then RomSizeMismatch(size, |kind.data|)
                           else OverlappingRegion(base, size)
      ensures r.Success? ==>
                forall a :: base <= a < base + size ==> IsFresh(kind, a - base, CellAt(a))
      ensures r.Success? && replace && 0 < size ==>
                && (forall s :: 0 <= s < |ramStores| && ramStores[s].Some? ==> Referenced(pages, true, s))
                && (forall s :: 0 <= s < |romStores| && romStores[s].Some? ==> Referenced(pages, false, s))
    {
      hide FlatCell, Backed, NoAlias;
      if base % PAGE_SIZE == 0 && size % PAGE_SIZE == 0 && base + size <= physicalSize {
        FreeIff(base, size);
      }
      if base % PAGE_SIZE != 0 || size % PAGE_SIZE != 0 {
        return Failure(UnalignedRegion(base, size));
      }
      if base + size >= WORD_LIMIT || base + size > physicalSize {
        return Failure(RegionOutOfRange(base, size));
      }
      if kind.RomRegion? && |kind.data| != size {
        return Failure(RomSizeMismatch(size, |kind.data|));
      }
      var firstPage, pageCount := base / PAGE_SIZE, size / PAGE_SIZE;
      if !replace && exists i :: firstPage <= i < firstPage + pageCount && pages[i] != Unmapped {
        return Failure(OverlappingRegion(base, size));
      }
      r := Success(());
      if size != 0 {
        PlaceRegion(firstPage, pageCount, kind);
        if replace {
          Reclaim();
        }
      }
    }

    /** Points the pages into a store of their own. */
    method PlaceRegion(firstPage: nat, pageCount: nat, kind: RegionKind)
      requires Valid() && firstPage + pageCount <= |pages|
      requires kind.RomRegion? ==> |kind.data| == pageCount * PAGE_SIZE
      modifies this`pages, this`ramStores, this`romStores
      ensures Valid() && |pages| == |old(pages)|
      ensures forall a :: 0 <= a < physicalSize ==>
                CellAt(a) == if firstPage * PAGE_SIZE <= a < (firstPage + pageCount) * PAGE_SIZE
                             then NewCell(kind, a - firstPage * PAGE_SIZE) else old(CellAt(a))
    {
      hide Prepared, Replaced;
      var page := PrepareStore(kind, pageCount * PAGE_SIZE);
      RegionMapped(pages, old(ramStores), old(romStores), ramStores, romStores, kind, firstPage, pageCount, page);
      SetPages(firstPage, pageCount, page);
    }

    /** Frees the stores that are no longer used. */
    method Reclaim()
      requires Valid()
      modifies this`ramStores, this`romStores
      ensures Valid() && forall a :: 0 <= a < physicalSize ==> CellAt(a) == old(CellAt(a))
      ensures forall s :: 0 <= s < |ramStores| && ramStores[s].Some? ==> Referenced(pages, true, s)
      ensures forall s :: 0 <= s < |romStores| && romStores[s].Some? ==> Referenced(pages, false, s)
    {
      ReclaimUnreferencedStores();
      ReclaimKeepsCells(pages, old(ramStores), old(romStores), ramStores, romStores);
    }

    /** The first page of a new region, pointing into a new store of its own. */
    method PrepareStore(kind: RegionKind, size: nat) returns (page: Page)
      modifies this`ramStores, this`romStores
      ensures Prepared(old(ramStores), old(romStores), ramStores, romStores, kind, size, page)
    {
      match kind
      case RamRegion =>
        var store;
        ramStores, store := InsertStore(ramStores, seq(size, _ => 0));
        page := Ram(store, 0);
      case RomRegion(data) =>
        var store;
        romStores, store := InsertStore(romStores, data);
        page := Rom(store, 0);
      case ExternalRegion =>
        page := External;
    }

    method SetPages(firstPage: nat, pageCount: nat, page: Page)
      requires firstPage + pageCount <= |pages|
      modifies this`pages
      ensures pages == Replaced(old(pages), firstPage, pageCount, page)
    {
      var k := 0;
      while k < pageCount
        invariant k <= pageCount
        invariant pages == Replaced(old(pages), firstPage, k, page)
      {
        pages := pages[firstPage + k := PageOf(page, k)];
        k := k + 1;
      }
    }

    /** Mark the stores that some page points into and drop the rest. */
    method ReclaimUnreferencedStores()
      modifies this`ramStores, this`romStores
      ensures Reclaimed(old(ramStores), ramStores, pages, true)
      ensures Reclaimed(old(romStores), romStores, pages, false)
    {
      var ramMarks := seq(|ramStores|, _ => false);
      var romMarks := seq(|romStores|, _ => false);
      var i := 0;
      while i < |pages|
        invariant 0 <= i <= |pages| && |ramMarks| == |ramStores| && |romMarks| == |romStores|
        invariant ramStores == old(ramStores) && romStores == old(romStores)
        invariant forall s :: 0 <= s < |ramMarks| ==> ramMarks[s] == Referenced(pages[..i], true, s)
        invariant forall s :: 0 <= s < |romMarks| ==> romMarks[s] == Referenced(pages[..i], false, s)
      {
        ReferencedOneMore(pages, i);
        match pages[i] {
          case Ram(store, _) =>
            if store < |ramMarks| {
              ramMarks := ramMarks[store := true];
            }
          case Rom(store, _) =>
            if store < |romMarks| {
              romMarks := romMarks[store := true];
            }
          case External =>
          case Unmapped =>
        }
        i := i + 1;
      }
      assert pages[..|pages|] == pages;
      ramStores := Sweep(ramStores, ramMarks);
      romStores := Sweep(romStores, romMarks);
    }

    // ---------------------------------------------------------------------------------- RAM regions

    /** `ram_regions`: every maximal run of consecutive RAM pages, in order. */
    method RamRegions() returns (regions: seq<(nat, nat)>)
      ensures RunsOf(pages, |pages|, InPages(regions))
      ensures forall first: nat, end: nat :: (first, end) in InPages(regions) <==> IsRun(pages, first, end)
      ensures forall r :: 0 <= r < |regions| ==> regions[r] == Bytes(InPages(regions)[r])
    {
      hide RunsOf, Bytes;
      ghost var runs: seq<(nat, nat)> := [];
      regions := [];
      NoRunsYet(pages);
      var pageIndex := 0;
      while pageIndex < |pages|
        invariant 0 <= pageIndex <= |pages|
        invariant pageIndex < |pages| ==> !Continues(pages, pageIndex)
        invariant RunsOf(pages, pageIndex, runs)
        invariant |regions| == |runs| && forall r :: 0 <= r < |runs| ==> regions[r] == Bytes(runs[r])
        decreases |pages| - pageIndex
      {
        if !pages[pageIndex].Ram? {
          NoRunHere(pages, pageIndex, runs);
          pageIndex := pageIndex + 1;
          continue;
        }
        var firstPage := pageIndex;
        var Ram(store, offset) := pages[firstPage];
        pageIndex := pageIndex + 1;
        while pageIndex < |pages|
              && pages[pageIndex] == Ram(store, offset + (pageIndex - firstPage) * PAGE_SIZE)
          invariant firstPage < pageIndex <= |pages|
          invariant forall k :: firstPage < k < pageIndex ==> Continues(pages, k)
          invariant forall k :: firstPage <= k < pageIndex ==>
                      pages[k] == Ram(store, offset + (k - firstPage) * PAGE_SIZE)
          decreases |pages| - pageIndex
        {
          pageIndex := pageIndex + 1;
        }
        RunFound(pages, firstPage, pageIndex, runs);
        BytesOf(firstPage, pageIndex);
        runs := runs + [(firstPage, pageIndex)];
        regions := regions + [(firstPage * PAGE_SIZE, (pageIndex - firstPage) * PAGE_SIZE)];
      }
      AllRuns(pages, runs);
      BackToPages(regions, runs);
    }

    /** `ram_segment`: the store, offset and size of the run that starts at `base`. */
    method RamSegment(base: nat) returns (r: Option<(nat, nat, nat)>)
      requires Valid()
      ensures r.Some? <==> base % PAGE_SIZE == 0 && exists end :: IsRun(pages, base / PAGE_SIZE, end)
      ensures r.Some? ==>
                && r.value.2 % PAGE_SIZE == 0
                && IsRun(pages, base / PAGE_SIZE, base / PAGE_SIZE + r.value.2 / PAGE_SIZE)
                && pages[base / PAGE_SIZE] == Ram(r.value.0, r.value.1)
    {
      if base % PAGE_SIZE != 0 || base >= physicalSize {
        return None;
      }
      var firstPage := base / PAGE_SIZE;
      if !pages[firstPage].Ram? {
        return None;
      }
      var Ram(store, offset) := pages[firstPage];
      if firstPage != 0 && offset >= PAGE_SIZE
         && pages[firstPage - 1] == Ram(store, offset - PAGE_SIZE)
      {
        assert Continues(pages, firstPage);
        return None;
      }
      var pageIndex := firstPage + 1;
      while pageIndex < |pages|
            && pages[pageIndex] == Ram(store, offset + (pageIndex - firstPage) * PAGE_SIZE)
        invariant firstPage < pageIndex <= |pages|
        invariant forall k :: firstPage < k < pageIndex ==> Continues(pages, k)
        invariant forall k :: firstPage <= k < pageIndex ==>
                    pages[k] == Ram(store, offset + (k - firstPage) * PAGE_SIZE)
        decreases |pages| - pageIndex
      {
        pageIndex := pageIndex + 1;
      }
      assert IsRun(pages, firstPage, pageIndex);
      r := Some((store, offset, (pageIndex - firstPage) * PAGE_SIZE));
    }

    /** `ram_region`: the bytes of the run that starts at `base` are those of its addresses. */
    method RamBytes(base: nat) returns (r: Option<seq<byte>>)
      requires Valid()
      ensures r.Some? <==> base % PAGE_SIZE == 0 && exists end :: IsRun(pages, base / PAGE_SIZE, end)
      ensures r.Some? ==>
                && |r.value| % PAGE_SIZE == 0
                && IsRun(pages, base / PAGE_SIZE, base / PAGE_SIZE + |r.value| / PAGE_SIZE)
                && base + |r.value| <= physicalSize
                && forall i :: 0 <= i < |r.value| ==>
                     CellAt(base + i) == RamCell(r.value[i]) && Peek(base + i) == r.value[i]
    {
      var segment := RamSegment(base);
      if segment == None {
        return None;
      }
      var (store, offset, size) := segment.value;
      ghost var end := base / PAGE_SIZE + size / PAGE_SIZE;
      RunInStore(pages, ramStores, romStores, base / PAGE_SIZE, end);
      if store < |ramStores| && ramStores[store].Some? && offset + size <= |ramStores[store].value| {
        r := Some(ramStores[store].value[offset..offset + size]);
      } else {
        r := None;
      }
    }

    /** `is_valid`: what `load_state` demands of a memory image. An image that it accepts is a flat address
        space exactly if its pages are aligned in their stores and its RAM pages do not overlap there. */
    method IsValid() returns (ok: bool)
      ensures ok <==> Accepted(physicalSize, pages, ramStores, romStores)
      ensures ok ==> (Valid() <==> AllAligned(pages) && Apart(pages))
      ensures Valid() && (exists bits :: 20 <= bits <= 24 && physicalSize == SpaceSize(bits)) ==> ok
    {
      assert Valid() ==> forall i :: 0 <= i < |pages| ==> Backed(pages[i], ramStores, romStores);
      ok := physicalSize in {0x10_0000, 0x20_0000, 0x40_0000, 0x80_0000, 0x100_0000}
            && |pages| == physicalSize / PAGE_SIZE
            && forall i :: 0 <= i < |pages| ==> PageInStore(pages[i], ramStores, romStores);
      if ok {
        AcceptedIsValid(physicalSize, pages, ramStores, romStores);
      }
    }
  }

  // --------------------------------------------------------------------------- images that are accepted

  /** What the test of a loaded image says of it. */
  predicate Accepted(size: nat, pages: seq<Page>, ram: Stores, rom: Stores) {
    && size in {0x10_0000, 0x20_0000, 0x40_0000, 0x80_0000, 0x100_0000} && |pages| == size / PAGE_SIZE
    && forall i :: 0 <= i < |pages| ==> PageInStore(pages[i], ram, rom)
  }

  predicate Aligned(page: Page) {
    page.Ram? || page.Rom? ==> page.offset % PAGE_SIZE == 0
  }

  predicate AllAligned(pages: seq<Page>) {
    forall i :: 0 <= i < |pages| ==> Aligned(pages[i])
  }

  /** The pages have bytes of a RAM store in common. */
  predicate Meet(p: Page, q: Page) {
    p.Ram? && q.Ram? && p.store == q.store && p.offset < q.offset + PAGE_SIZE && q.offset < p.offset + PAGE_SIZE
  }

  predicate Apart(pages: seq<Page>) {
    forall i, k :: 0 <= i < k < |pages| ==> !Meet(pages[i], pages[k])
  }

  /** Pages that are aligned have all their bytes in common or none. */
  lemma MeetIsEqual(p: Page, q: Page)
    requires Aligned(p) && Aligned(q) && p.Ram?
    ensures Meet(p, q) <==> p == q
  {
  }

  lemma AcceptedIsValid(size: nat, pages: seq<Page>, ram: Stores, rom: Stores)
    requires Accepted(size, pages, ram, rom)
    ensures size == |pages| * PAGE_SIZE <= WORD_LIMIT
    ensures AllBacked(pages, ram, rom) && NoAlias(pages) <==> AllAligned(pages) && Apart(pages)
  {
    forall i | 0 <= i < |pages|
      ensures Backed(pages[i], ram, rom) <==> Aligned(pages[i])
    {
    }
    if AllAligned(pages) {
      forall i, k | 0 <= i < k < |pages| && pages[i].Ram?
        ensures Meet(pages[i], pages[k]) <==> pages[i] == pages[k]
      {
        MeetIsEqual(pages[i], pages[k]);
      }
    }
  }

  /** The byte of a RAM store that an address shows. */
  function Shows(pages: seq<Page>, a: nat): Option<(nat, nat)>
    requires a < |pages| * PAGE_SIZE
  {
    var page := pages[a / PAGE_SIZE];
    if page.Ram? then Some((page.store, page.offset + a % PAGE_SIZE)) else None
  }

  /** RAM pages do not overlap exactly if no byte is shown at two addresses, where a store through one of them
      would be seen at the other. */
  lemma ApartIff(pages: seq<Page>)
    ensures Apart(pages) <==>
              forall a, b :: 0 <= a < b < |pages| * PAGE_SIZE && Shows(pages, a).Some? ==>
                Shows(pages, a) != Shows(pages, b)
  {
    if Apart(pages) {
      forall a, b | 0 <= a < b < |pages| * PAGE_SIZE && Shows(pages, a).Some?
        ensures Shows(pages, a) != Shows(pages, b)
      {
        var i, k := a / PAGE_SIZE, b / PAGE_SIZE;
        assert i < k ==> !Meet(pages[i], pages[k]);
      }
    } else {
      var i, k :| 0 <= i < k < |pages| && Meet(pages[i], pages[k]);
      SharedByte(pages, i, k);
    }
  }

  lemma SharedByte(pages: seq<Page>, i: nat, k: nat)
    requires i < k < |pages| && Meet(pages[i], pages[k])
    ensures exists a, b :: 0 <= a < b < |pages| * PAGE_SIZE && Shows(pages, a).Some?
                        && Shows(pages, a) == Shows(pages, b)
  {
    var first := Max(pages[i].offset, pages[k].offset);
    var a := i * PAGE_SIZE + (first - pages[i].offset);
    var b := k * PAGE_SIZE + (first - pages[k].offset);
    assert a / PAGE_SIZE == i && b / PAGE_SIZE == k;
    assert Shows(pages, a) == Shows(pages, b) == Some((pages[i].store, first));
  }

  /** Two RAM pages over one store, and nothing else. */
  function TwoPages(second: nat): seq<Page> {
    [Ram(0, 0), Ram(0, second)] + seq(254, _ => Unmapped)
  }

  /** The test accepts images that are no flat address space, and images that are one though they are not
      aligned: wherever the second page begins. */
  lemma TwoPagesAccepted(second: nat, bytes: seq<byte>)
    requires PAGE_SIZE <= |bytes| && second + PAGE_SIZE <= |bytes|
    ensures Accepted(0x10_0000, TwoPages(second), [Some(bytes)], [])
    ensures Apart(TwoPages(second)) <==> PAGE_SIZE <= second
    ensures AllAligned(TwoPages(second)) <==> second % PAGE_SIZE == 0
  {
    var pages := TwoPages(second);
    assert Meet(pages[0], pages[1]) <==> second < PAGE_SIZE;
    assert Aligned(pages[1]) <==> second % PAGE_SIZE == 0;
  }

  /** Page `i` is the next page of the store its predecessor points into. */
  predicate Continues(pages: seq<Page>, i: nat)
    requires i < |pages|
  {
    && 0 < i && pages[i - 1].Ram? && pages[i].Ram? && pages[i].store == pages[i - 1].store
    && pages[i].offset == pages[i - 1].offset + PAGE_SIZE
  }

  /** Pages `first .. end` are a maximal run of consecutive RAM pages. */
  predicate IsRun(pages: seq<Page>, first: nat, end: nat) {
    && first < end <= |pages|
    && pages[first].Ram? && !Continues(pages, first)
    && (forall k :: first < k < end ==> Continues(pages, k))
    && (end < |pages| ==> !Continues(pages, end))
  }

  /** A run of pages as base and size in bytes. */
  function Bytes(run: (nat, nat)): (r: (int, int)) {
    (run.0 * PAGE_SIZE, (run.1 - run.0) * PAGE_SIZE)
  }

  /** Base and size in bytes as first page and page after the last. */
  function InPages(regions: seq<(nat, nat)>): (r: seq<(nat, nat)>)
    ensures |r| == |regions|
  {
    seq(|regions|, i requires 0 <= i < |regions| =>
      (regions[i].0 / PAGE_SIZE, (regions[i].0 + regions[i].1) / PAGE_SIZE))
  }

  lemma BackToPages(regions: seq<(nat, nat)>, runs: seq<(nat, nat)>)
    requires |regions| == |runs|
    requires forall r :: 0 <= r < |runs| ==> runs[r].0 <= runs[r].1 && regions[r] == Bytes(runs[r])
    ensures InPages(regions) == runs
  {
    forall r | 0 <= r < |runs|
      ensures InPages(regions)[r] == runs[r]
    {
      assert regions[r].0 + regions[r].1 == runs[r].1 * PAGE_SIZE;
    }
  }

  /** `runs` lists, in order and without overlap, exactly the runs that start before page `limit`. */
  ghost predicate RunsOf(pages: seq<Page>, limit: nat, runs: seq<(nat, nat)>) {
    && (forall r :: 0 <= r < |runs| ==> IsRun(pages, runs[r].0, runs[r].1) && runs[r].1 <= limit)
    && (forall q, r :: 0 <= q < r < |runs| ==> runs[q].1 <= runs[r].0)
    && (forall first: nat, end: nat :: IsRun(pages, first, end) && first < limit ==>
          (first, end) in runs)
  }

  /** A run is determined by its first page. */
  lemma RunEndsOnce(pages: seq<Page>, first: nat, a: nat, b: nat)
    requires IsRun(pages, first, a) && IsRun(pages, first, b)
    ensures a == b
  {
  }

  lemma NoRunsYet(pages: seq<Page>)
    ensures RunsOf(pages, 0, [])
  {
  }

  lemma NoRunHere(pages: seq<Page>, p: nat, runs: seq<(nat, nat)>)
    requires p < |pages| && !pages[p].Ram? && RunsOf(pages, p, runs)
    ensures RunsOf(pages, p + 1, runs)
  {
  }

  lemma AllRuns(pages: seq<Page>, runs: seq<(nat, nat)>)
    requires RunsOf(pages, |pages|, runs)
    ensures forall first: nat, end: nat :: (first, end) in runs <==> IsRun(pages, first, end)
    ensures forall r :: 0 <= r < |runs| ==> runs[r].0 <= runs[r].1
  {
  }

  lemma BytesOf(first: nat, end: nat)
    ensures Bytes((first, end)) == (first * PAGE_SIZE, (end - first) * PAGE_SIZE)
  {
  }

  lemma RunFound(pages: seq<Page>, first: nat, end: nat, runs: seq<(nat, nat)>)
    requires RunsOf(pages, first, runs) && IsRun(pages, first, end)
    ensures RunsOf(pages, end, runs + [(first, end)])
  {
    var next := runs + [(first, end)];
    forall f: nat, e: nat | IsRun(pages, f, e) && f < end
      ensures (f, e) in next
    {
      if f < first {
        assert (f, e) in runs;
      } else if f == first {
        RunEndsOnce(pages, f, e, end);
        assert next[|runs|] == (f, e);
      }
    }
  }

  /** The pages of a run lie back to back in one store, so its bytes are a slice of that store. */
  lemma RunInStore(pages: seq<Page>, ram: Stores, rom: Stores, first: nat, end: nat)
    requires AllBacked(pages, ram, rom) && IsRun(pages, first, end)
    ensures var store := pages[first].store;
            var offset := pages[first].offset;
            && store < |ram| && ram[store].Some?
            && offset + (end - first) * PAGE_SIZE <= |ram[store].value|
            && forall a :: first * PAGE_SIZE <= a < end * PAGE_SIZE ==>
                 FlatCell(pages, ram, rom, a)
                 == RamCell(ram[store].value[offset + (a - first * PAGE_SIZE)])
  {
    var (store, offset) := (pages[first].store, pages[first].offset);
    forall k | first <= k < end
      ensures pages[k] == Ram(store, offset + (k - first) * PAGE_SIZE) && Backed(pages[k], ram, rom)
    {
      RunPage(pages, first, end, k);
      assert Backed(pages[k], ram, rom);
    }
    assert Backed(pages[end - 1], ram, rom);
    forall a | first * PAGE_SIZE <= a < end * PAGE_SIZE
      ensures FlatCell(pages, ram, rom, a)
           == RamCell(ram[store].value[offset + (a - first * PAGE_SIZE)])
    {
      assert Backed(pages[a / PAGE_SIZE], ram, rom);
    }
  }

  lemma {:induction false} RunPage(pages: seq<Page>, first: nat, end: nat, k: nat)
    requires IsRun(pages, first, end) && first <= k < end
    ensures pages[k] == Ram(pages[first].store, pages[first].offset + (k - first) * PAGE_SIZE)
    decreases k
  {
    if first < k {
      RunPage(pages, first, end, k - 1);
      assert Continues(pages, k);
    }
  }

  /** The listed runs cover exactly the RAM pages. */
  lemma RunsCoverRam(pages: seq<Page>, runs: seq<(nat, nat)>, p: nat)
    requires RunsOf(pages, |pages|, runs) && p < |pages|
    ensures pages[p].Ram? <==> exists r :: 0 <= r < |runs| && runs[r].0 <= p < runs[r].1
  {
    if pages[p].Ram? {
      var first, end := RamPageHasRun(pages, p);
      assert (first, end) in runs;
    }
    forall r | 0 <= r < |runs| && runs[r].0 <= p < runs[r].1
      ensures pages[p].Ram?
    {
      RunPage(pages, runs[r].0, runs[r].1, p);
    }
  }

  /** A page belongs to a run exactly when it is RAM. */
  lemma {:induction false} RamPageHasRun(pages: seq<Page>, p: nat) returns (first: nat, end: nat)
    requires p < |pages| && pages[p].Ram?
    ensures IsRun(pages, first, end) && first <= p < end
  {
    first := p;
    while Continues(pages, first)
      invariant first <= p && pages[first].Ram?
      invariant forall k :: first < k <= p ==> Continues(pages, k)
      decreases first
    {
      first := first - 1;
    }
    end := p + 1;
    while end < |pages| && Continues(pages, end)
      invariant p < end <= |pages|
      invariant forall k :: first < k < end ==> Continues(pages, k)
    {
      end := end + 1;
    }
  }

  /** The source's per-page validity test, which does not look at alignment. */
  predicate PageInStore(page: Page, ram: Stores, rom: Stores) {
    match page
    case Ram(store, offset) => Holds(ram, store, offset)
    case Rom(store, offset) => Holds(rom, store, offset)
    case External => true
    case Unmapped => true
  }

  lemma ReferencedOneMore(pages: seq<Page>, i: nat)
    requires i < |pages|
    ensures forall ram, s {:trigger Referenced(pages[..i + 1], ram, s)} ::
              Referenced(pages[..i + 1], ram, s)
              <==> Referenced(pages[..i], ram, s)
                   || ((if ram then pages[i].Ram? else pages[i].Rom?) && pages[i].store == s)
  {
    forall ram, s
      ensures Referenced(pages[..i + 1], ram, s)
              <==> Referenced(pages[..i], ram, s)
                   || ((if ram then pages[i].Ram? else pages[i].Rom?) && pages[i].store == s)
    {
      var (more, less) := (pages[..i + 1], pages[..i]);
      if Referenced(less, ram, s) {
        var k :| 0 <= k < |less| && (if ram then less[k].Ram? else less[k].Rom?) && less[k].store == s;
        assert more[k] == less[k];
      }
      if Referenced(more, ram, s) {
        var k :| 0 <= k < |more| && (if ram then more[k].Ram? else more[k].Rom?) && more[k].store == s;
        assert k < i ==> less[k] == more[k];
      }
      assert more[i] == pages[i];
    }
  }

  method Sweep(stores: Stores, marks: seq<bool>) returns (next: Stores)
    requires |marks| == |stores|
    ensures |next| == |stores|
    ensures forall s :: 0 <= s < |stores| ==> next[s] == if marks[s] then stores[s] else None
  {
    next := stores;
    var s := 0;
    while s < |stores|
      invariant 0 <= s <= |stores| && |next| == |stores|
      invariant forall k :: 0 <= k < |stores| ==>
                  next[k] == if k < s && !marks[k] then None else stores[k]
    {
      if !marks[s] {
        next := next[s := None];
      }
      s := s + 1;
    }
  }

  function Replaced(pages: seq<Page>, firstPage: nat, count: nat, page: Page): (r: seq<Page>)
    requires firstPage + count <= |pages|
    ensures |r| == |pages|
    ensures forall i :: 0 <= i < |pages| ==>
              r[i] == if firstPage <= i < firstPage + count then PageOf(page, i - firstPage)
                      else pages[i]
  {
    seq(|pages|, i requires 0 <= i < |pages| =>
      if firstPage <= i < firstPage + count then PageOf(page, i - firstPage) else pages[i])
  }
}
