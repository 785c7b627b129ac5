/**
 The part of the machine that recording and replay depend on.

 The CPU itself is arbitrary: `Cpu` is a record of functions over a mostly unknown `CoreState`. What is
 fixed is how a step may touch the outside world (the guarded access primitives of access.rs) and
 the debug layer that watches it (debug.rs).
 */
module Machine {
  import opened Basics

  // The parts of a Z180 that a replay carries around without looking inside.
  type Registers(==, !new)
  type Internals(==, !new)
  type Stimulus(==, !new)
  type TraceEntry(==, !new)

  /** The core: what a failed instruction puts back, the clock, and everything else. */
  datatype CoreState = CoreState(registers: Registers, eiShadow: bool, pcWatchHits: nat, cycleCount: nat,
                                 rest: Internals)

  datatype BusAccess =
    | MemRead(address: nat)
    | MemWrite(address: nat, value: byte)
    | IoRead(port: nat)
    | IoWrite(port: nat, value: byte)
  {
    predicate IsRead() {
      MemRead? || IoRead?
    }
  }

  datatype Announcement =
    | IoReadEvent(cycle: nat, pc: nat, port: nat, val: byte)
    | IoWriteEvent(cycle: nat, pc: nat, port: nat, val: byte)
    | IrqAck(cycle: nat, source: nat, vector: nat)
    | Trap(cycle: nat, pc: nat, opcode: seq<byte>)
    | RomWrite(cycle: nat, pc: nat, phys: nat, val: byte)

  datatype Event =
    | MemReadEvent(cycle: nat, pc: nat, phys: nat, val: byte)
    | MemWriteEvent(cycle: nat, pc: nat, phys: nat, val: byte)
    | Other(what: Announcement)

  /** What a step reports to the debug layer: a completed guest memory access, which becomes an
      event only under a matching watch, or an announcement, which always becomes one. */
  datatype Note =
    | GuestRead(cycle: nat, pc: nat, phys: nat, val: byte)
    | GuestWrite(cycle: nat, pc: nat, phys: nat, val: byte)
    | Announce(what: Announcement)

  /**
   One step of the machine, as a strategy. `Call` asks for a bus access and has one continuation per
   byte the bus may answer, and one for "no answer". `Guarded` is an access that the core answers from
   its own memory: `skipped` is the step without it. `Report` hands a note to the debug layer.
   `IfFailed` is the test `if let Some(error) = self.bus_error.take()`: the step ends in `aborted`
   when a bus access has failed. `Finish` ends the step normally.
   */
  datatype Step =
    | Call(access: BusAccess, replies: seq<Step>, failed: Step)
    | Guarded(skipped: Step, next: Step)
    | Report(note: Note, next: Step)
    | IfFailed(aborted: CoreState, next: Step)
    | Finish(core: CoreState, cycles: nat)
  {
    function After(reply: Option<byte>): (s: Step)
      requires Call?
      ensures s < this
    {
      if reply.Some? && reply.value < |replies| then replies[reply.value] else failed
    }
  }

  datatype WatchKind = WatchRead | WatchWrite | WatchBoth

  datatype MemWatch = MemWatch(id: nat, base: nat, size: nat, kind: WatchKind)
  {
    predicate Matches(phys: nat, write: bool) {
      && base <= phys < base + size
      && (if write then kind != WatchRead else kind != WatchWrite)
    }
  }

  const WATCH_ID_LIMIT: nat := 0x1_0000_0000_0000_0000

  /** The event ring, its sticky loss flag and the memory watches. */
  datatype Debug = Debug(capacity: nat, events: seq<Event>, lost: bool,
                         watches: seq<MemWatch>, nextWatchId: nat)
  {
    /** What `load_state` insists on for this part of the state. */
    predicate Sound() {
      |events| <= capacity && 0 < nextWatchId < WATCH_ID_LIMIT
    }

    predicate Watched(phys: nat, write: bool) {
      exists i :: 0 <= i < |watches| && watches[i].Matches(phys, write)
    }

    function Push(event: Event): Debug {
      if capacity == 0 then this.(lost := true)
      else if |events| == capacity then this.(events := events[1..] + [event], lost := true)
      else this.(events := events + [event])
    }

    /** The event a note turns into under the present watches, if any. */
    function EventOf(note: Note): Option<Event> {
      match note
      case GuestRead(cycle, pc, phys, val) =>
        if Watched(phys, false) then Some(MemReadEvent(cycle, pc, phys, val)) else None
      case GuestWrite(cycle, pc, phys, val) =>
        if Watched(phys, true) then Some(MemWriteEvent(cycle, pc, phys, val)) else None
      case Announce(what) => Some(Other(what))
    }

    function Observe(note: Note): Debug {
      match EventOf(note)
      case Some(event) => Push(event)
      case None => this
    }

    function AddWatch(base: nat, size: nat, kind: WatchKind): Debug {
      var next := if nextWatchId + 1 >= WATCH_ID_LIMIT then 1 else nextWatchId + 1;
      this.(watches := watches + [MemWatch(nextWatchId, base, size, kind)], nextWatchId := next)
    }

    function Drained(): Debug {
      this.(events := [])
    }
  }

  function ObserveAll(d: Debug, notes: seq<Note>): Debug
    decreases |notes|
  {
    if notes == [] then d else ObserveAll(d.Observe(notes[0]), notes[1..])
  }

  /** Everything a save state holds. */
  datatype MachineState = MachineState(core: CoreState, debug: Debug)

  datatype StimulusOutcome = Applied | Rejected

  datatype Output = AsciTx(channel: nat) | CsioTx | Events | InstructionTrace

  datatype Drained = ByteOut(b: Option<byte>) | EventsOut(events: seq<Event>)
                   | TraceOut(trace: seq<TraceEntry>)

  /** An arbitrary deterministic CPU with its save-state codec. */
  datatype Cpu = Cpu(
    step: CoreState -> Step,
    stimulate: (CoreState, Stimulus) -> (CoreState, StimulusOutcome),
    drain: (CoreState, Output) -> (CoreState, Drained),
    loadable: CoreState -> bool,
    save: MachineState -> seq<byte>,
    load: seq<byte> -> Option<MachineState>)
  {
    predicate Sound(st: MachineState) {
      loadable(st.core) && st.debug.Sound()
    }

    /** Every way the step can end leaves a loadable core whose clock has not run backwards. */
    ghost predicate Grounded(s: Step, floor: nat)
      decreases s
    {
      match s
      case Call(_, replies, failed) =>
        && (forall i :: 0 <= i < |replies| ==> Grounded(replies[i], floor))
        && Grounded(failed, floor)
      case Guarded(skipped, next) => Grounded(skipped, floor) && Grounded(next, floor)
      case Report(_, next) => Grounded(next, floor)
      case IfFailed(aborted, next) =>
        loadable(aborted) && floor <= aborted.cycleCount && Grounded(next, floor)
      case Finish(core, _) => loadable(core) && floor <= core.cycleCount
    }

    /** Loading undoes saving. */
    predicate Reloads(st: MachineState) {
      Sound(st) ==> 1 < |save(st)| && load(save(st)) == Some(st)
    }

    /** Whatever loads satisfies the loader's checks. */
    predicate LoadsSound(data: seq<byte>) {
      load(data).Some? ==> Sound(load(data).value)
    }

    ghost predicate StepsGrounded(c: CoreState) {
      loadable(c) ==> Grounded(step(c), c.cycleCount)
    }

    predicate StimulusKeeps(c: CoreState, s: Stimulus) {
      loadable(c) ==> loadable(stimulate(c, s).0) && stimulate(c, s).0.cycleCount == c.cycleCount
    }

    predicate DrainKeeps(c: CoreState, o: Output) {
      loadable(c) ==> loadable(drain(c, o).0) && drain(c, o).0.cycleCount == c.cycleCount
    }

    /** What replay needs of the CPU: the codec is faithful and every operation keeps the core loadable. */
    ghost predicate Lawful() {
      && (forall st {:trigger Reloads(st)} :: Reloads(st))
      && (forall data {:trigger LoadsSound(data)} :: LoadsSound(data))
      && (forall c {:trigger StepsGrounded(c)} :: StepsGrounded(c))
      && (forall c, s {:trigger StimulusKeeps(c, s)} :: StimulusKeeps(c, s))
      && (forall c, o {:trigger DrainKeeps(c, o)} :: DrainKeeps(c, o))
    }
  }

  lemma {:induction false} ObserveAllAppend(d: Debug, a: seq<Note>, b: seq<Note>)
    ensures ObserveAll(d, a + b) == ObserveAll(ObserveAll(d, a), b)
    decreases |a|
  {
    if a == [] {
      assert a + b == b;
    } else {
      assert (a + b)[1..] == a[1..] + b;
      ObserveAllAppend(d.Observe(a[0]), a[1..], b);
    }
  }

  lemma {:induction false} ObserveAllSound(d: Debug, notes: seq<Note>)
    requires d.Sound()
    ensures ObserveAll(d, notes).Sound()
    decreases |notes|
  {
    if notes != [] {
      ObserveAllSound(d.Observe(notes[0]), notes[1..]);
    }
  }
}
