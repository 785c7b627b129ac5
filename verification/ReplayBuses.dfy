/** The recording bus and the machine wired to it. */
module ReplayBuses {
  import opened Basics
  import opened Machine
  import opened Transcript

  datatype Mode = Setup | Live | Playback

  /** The bus shared by the timeline and the machine (bus.rs). */
  class ReplayBus {
    const host: Host
    var inner: HostState
    var mode: Mode
    var records: seq<BusRecord>
    var cursor: nat
    ghost var liveCalls: nat  // accesses the live host has been asked for

    constructor (host: Host, inner: HostState)
      ensures this.host == host && this.inner == inner && mode == Mode.Setup
      ensures records == [] && cursor == 0 && liveCalls == 0
    {
      this.host, this.inner, this.mode := host, inner, Mode.Setup;
      this.records, this.cursor, this.liveCalls := [], 0, 0;
    }

    method BeginLive()
      modifies this
      ensures mode == Mode.Live && records == [] && cursor == 0
      ensures inner == old(inner) && liveCalls == old(liveCalls)
    {
      mode, records, cursor := Mode.Live, [], 0;
    }

    method BeginPlayback(at: nat) returns (r: Result<(), BusError>)
      modifies this`mode, this`cursor
      ensures r.Success? <==> at <= |records|
      ensures r.Success? ==> mode == Playback && cursor == at
      ensures r.Failure? ==> mode == old(mode) && cursor == old(cursor)
    {
      if at > |records| {
        return Failure(Divergence(at, None, MemRead(0)));
      }
      mode, cursor := Playback, at;
      r := Success(());
    }

    method RestoreMode(mode: Mode, cursor: nat)
      modifies this`mode, this`cursor
      ensures this.mode == mode && this.cursor == cursor
    {
      this.mode, this.cursor := mode, cursor;
    }

    /** The record at the cursor was of this very access. */
    twostate predicate Next(actual: BusAccess)
      reads `cursor, `records
    {
      old(cursor) < |old(records)| && old(records)[old(cursor)].access == actual
    }

    /** The access is refused and the cursor stays. */
    twostate predicate Diverges(new r: Result<byte, BusError>, actual: BusAccess)
      reads `cursor, `records
    {
      && cursor == old(cursor)
      && r == Failure(Divergence(cursor, if cursor < |records| then Some(records[cursor].access) else None, actual))
    }

    method PlaybackRead(actual: BusAccess) returns (r: Result<byte, BusError>)
      requires actual.IsRead()
      modifies this`cursor
      ensures (r, cursor) == PlayAccess(records, old(cursor), actual)
      ensures !Next(actual) ==> Diverges(r, actual)
      ensures Next(actual) ==>
                var record := records[old(cursor)];
                && cursor == old(cursor) + 1
                && (record.failed ==> r == Failure(RecordedHostFailure(old(cursor))))
                && (!record.failed && record.readValue.Some? ==> r == Success(record.readValue.value))
                && (!record.failed && record.readValue.None? ==>
                      r == Failure(Divergence(old(cursor), Some(actual), actual)))
    {
      var index := cursor;
      if index >= |records| {
        return Failure(Divergence(index, None, actual));
      }
      var record := records[index];
      if record.access != actual {
        return Failure(Divergence(index, Some(record.access), actual));
      }
      cursor := cursor + 1;
      if record.failed {
        return Failure(RecordedHostFailure(index));
      }
      match record.readValue
      case Some(value) => r := Success(value);
      case None => r := Failure(Divergence(index, Some(record.access), record.access));
    }

    method PlaybackWrite(actual: BusAccess) returns (r: Result<byte, BusError>)
      requires !actual.IsRead()
      modifies this`cursor
      ensures (r, cursor) == PlayAccess(records, old(cursor), actual)
      ensures !Next(actual) ==> Diverges(r, actual)
      ensures Next(actual) ==>
                && cursor == old(cursor) + 1
                && r == if records[old(cursor)].failed then Failure(RecordedHostFailure(old(cursor)))
                        else Success(0)
    {
      var index := cursor;
      if index >= |records| {
        return Failure(Divergence(index, None, actual));
      }
      var record := records[index];
      if record.access != actual {
        return Failure(Divergence(index, Some(record.access), actual));
      }
      cursor := cursor + 1;
      r := if record.failed then Failure(RecordedHostFailure(index)) else Success(0);
    }

    /** The four `HostBus` methods: playback never reaches the host, any other mode always does and
        logs the answer. */
    method Access(access: BusAccess) returns (r: Result<byte, BusError>)
      modifies this`inner, this`records, this`cursor, this`liveCalls
      ensures mode == Playback ==>
                && (r, cursor) == PlayAccess(records, old(cursor), access)
                && inner == old(inner) && records == old(records) && liveCalls == old(liveCalls)
      ensures mode != Playback ==>
                var (inner', answer) := host.respond(old(inner), access);
                && r == LiveAnswer(access, answer)
                && inner == inner' && liveCalls == old(liveCalls) + 1
                && records == old(records) + [RecordOf(access, answer)]
                && cursor == old(cursor)
    {
      if mode == Playback {
        if access.IsRead() {
          r := PlaybackRead(access);
        } else {
          r := PlaybackWrite(access);
        }
        return;
      }
      var (inner', answer) := host.respond(inner, access);
      inner, liveCalls := inner', liveCalls + 1;
      match answer
      case Success(value) =>
        records := records + [BusRecord(access, if access.IsRead() then Some(value) else None, false)];
        r := Success(if access.IsRead() then value else 0);
      case Failure(error) =>
        records := records + [BusRecord(access, None, true)];
        r := Failure(LiveHost(error));
    }
  }

  lemma HearThenRest(d: Debug, note: Note, pending: Option<BusError>, rest: seq<Note>)
    ensures ObserveAll(d, Heard(note, pending) + rest)
         == ObserveAll(if Heard(note, pending) == [] then d else d.Observe(note), rest)
  {
    ObserveAllAppend(d, Heard(note, pending), rest);
  }

  /** `Z180<ReplayBus<B>>`: the machine state, its pending bus error and the bus it is wired to. */
  class Z180 {
    const cpu: Cpu
    const bus: ReplayBus
    var core: CoreState
    var debug: Debug
    var busError: Option<BusError>

    constructor (cpu: Cpu, bus: ReplayBus, state: MachineState)
      ensures this.cpu == cpu && this.bus == bus && State() == state && busError == None
    {
      this.cpu, this.bus, this.core, this.debug := cpu, bus, state.core, state.debug;
      this.busError := None;
    }

    function State(): MachineState
      reads this`core, this`debug
    {
      MachineState(core, debug)
    }

    /** One step of the machine. */
    method TryStep() returns (r: Result<nat, BusError>)
      modifies this, bus`inner, bus`records, bus`cursor, bus`liveCalls
      ensures bus.mode == Playback ==>
                var run := RunPlay(cpu.step(old(core)), bus.records, old(bus.cursor), old(busError));
                && r == ResultOf(run.ret) && busError == LeftPending(run.ret)
                && core == run.core && debug == ObserveAll(old(debug), run.notes)
                && bus.cursor == run.cursor && bus.records == old(bus.records)
                && bus.inner == old(bus.inner) && bus.liveCalls == old(bus.liveCalls)
      ensures bus.mode != Playback ==>
                var run := RunLive(cpu.step(old(core)), bus.host, old(bus.inner), old(busError));
                && r == ResultOf(run.ret) && busError == LeftPending(run.ret)
                && core == run.core && debug == ObserveAll(old(debug), run.notes)
                && bus.records == old(bus.records) + run.records
                && bus.inner == run.host && bus.cursor == old(bus.cursor)
                && bus.liveCalls == old(bus.liveCalls) + |run.records|
    {
      r := Follow(cpu.step(core));
    }

    /** Follow a strategy to its end, sending its accesses through the guarded primitives. */
    method Follow(step: Step) returns (r: Result<nat, BusError>)
      modifies this, bus`inner, bus`records, bus`cursor, bus`liveCalls
      ensures bus.mode == Playback ==>
                var run := RunPlay(step, bus.records, old(bus.cursor), old(busError));
                && r == ResultOf(run.ret) && busError == LeftPending(run.ret)
                && core == run.core && debug == ObserveAll(old(debug), run.notes)
                && bus.cursor == run.cursor && bus.records == old(bus.records)
                && bus.inner == old(bus.inner) && bus.liveCalls == old(bus.liveCalls)
      ensures bus.mode != Playback ==>
                var run := RunLive(step, bus.host, old(bus.inner), old(busError));
                && r == ResultOf(run.ret) && busError == LeftPending(run.ret)
                && core == run.core && debug == ObserveAll(old(debug), run.notes)
                && bus.records == old(bus.records) + run.records
                && bus.inner == run.host && bus.cursor == old(bus.cursor)
                && bus.liveCalls == old(bus.liveCalls) + |run.records|
      decreases step
    {
      match step
      case Call(access, _, _) =>
        if busError.Some? {
          r := Follow(step.After(None));
        } else {
          var answer := bus.Access(access);
          busError := Pending(answer);
          r := Follow(step.After(Reply(answer)));
        }
      case Guarded(skipped, next) =>
        r := Follow(if busError.Some? then skipped else next);
      case Report(note, next) =>
        if busError.None? || note.Announce? {
          debug := debug.Observe(note);
        }
        r := Follow(next);
        HearThenRest(old(debug), note, old(busError),
                     if bus.mode == Playback
                     then RunPlay(next, bus.records, old(bus.cursor), old(busError)).notes
                     else RunLive(next, bus.host, old(bus.inner), old(busError)).notes);
      case IfFailed(aborted, next) =>
        if busError.Some? {
          core := aborted;
          r := Failure(busError.value);
          busError := None;
        } else {
          r := Follow(next);
        }
      case Finish(done, cycles) =>
        core := done;
        r := Success(cycles);
    }

    method SaveState() returns (data: seq<byte>)
      ensures data == cpu.save(State())
    {
      data := cpu.save(MachineState(core, debug));
    }

    method LoadState(data: seq<byte>) returns (ok: bool)
      modifies this`core, this`debug
      ensures ok == cpu.load(data).Some?
      ensures State() == if ok then cpu.load(data).value else old(State())
    {
      var state := cpu.load(data);
      ok := state.Some?;
      if ok {
        core, debug := state.value.core, state.value.debug;
      }
    }

    method ExecuteStimulus(stimulus: Stimulus) returns (outcome: StimulusOutcome)
      modifies this`core
      ensures (core, outcome) == cpu.stimulate(old(core), stimulus)
    {
      var (core', outcome') := cpu.stimulate(core, stimulus);
      core, outcome := core', outcome';
    }

    method DrainEvents() returns (events: seq<Event>)
      modifies this`debug
      ensures events == old(debug).events && debug == old(debug).Drained()
    {
      events := debug.events;
      debug := debug.(events := []);
    }

    method ExecuteDrain(output: Output) returns (drained: Drained)
      modifies this`core, this`debug
      ensures output == Events ==>
                drained == EventsOut(old(debug).events) && core == old(core)
                && debug == old(debug).Drained()
      ensures output != Events ==>
                (core, drained) == cpu.drain(old(core), output) && debug == old(debug)
    {
      if output == Events {
        var events := DrainEvents();
        drained := EventsOut(events);
      } else {
        var (core', drained') := cpu.drain(core, output);
        core, drained := core', drained';
      }
    }

    method AddMemWatch(base: nat, size: nat, kind: WatchKind)
      modifies this`debug
      ensures debug == old(debug).AddWatch(base, size, kind)
    {
      var id := debug.nextWatchId;
      var next := if id + 1 >= WATCH_ID_LIMIT then 1 else id + 1;
      debug := debug.(watches := debug.watches + [MemWatch(id, base, size, kind)], nextWatchId := next);
    }

    method ClearEventsLost()
      modifies this`debug
      ensures debug == old(debug).(lost := false)
    {
      debug := debug.(lost := false);
    }
  }
}
