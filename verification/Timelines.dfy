/** The timeline (timeline.rs): recording, replaying, seeking and the write search. */
module Timelines {
  import opened Basics
  import opened Machine
  import opened Transcript
  import opened ReplayBuses
  import opened Journals
  import opened Accesses
  import opened Thinning
  import opened Checkpoints
  import opened WriteSearch

  datatype Options = Options(interval: nat, maxCheckpoints: nat)
  {
    predicate Valid() {
      0 < interval && 2 <= maxCheckpoints
    }
  }

  datatype TimelineError =
    | WrongMode(expected: Mode, actual: Mode)
    | HostFailed(error: HostError)
    | HostFailedThen(record: nat)
    | BusDiverged(at: nat, expectedAccess: Option<BusAccess>, actualAccess: BusAccess)
    | BadState
    | InvalidCheckpoint
    | InvalidPosition(position: Position)
    | ActionDiverged(action: nat)
    | EventHistoryLost
    | RestoreFailed

  datatype TimelineConfigError = ZeroCheckpointInterval | TooFewCheckpoints

  /** `map_bus_error`. */
  function MapBusError(error: BusError): TimelineError {
    match error
    case LiveHost(e) => HostFailed(e)
    case RecordedHostFailure(record) => HostFailedThen(record)
    case Divergence(at, expected, actual) => BusDiverged(at, expected, actual)
  }

  /** What a step's caller sees. */
  function PublicResult(ret: Return): Result<nat, TimelineError> {
    match ResultOf(ret)
    case Success(cycles) => Success(cycles)
    case Failure(error) => Failure(MapBusError(error))
  }

  lemma PublicResultIs(ret: Return)
    ensures !ret.Threw? ==> PublicResult(ret) == Success(if ret.Hidden? then ret.hiddenCycles else ret.cycles)
    ensures ret.Threw? && ret.error.LiveHost? ==> PublicResult(ret) == Failure(HostFailed(ret.error.error))
  {
  }

  /** The checkpoints of a live recording with `count` attempts. */
  predicate Even(cps: seq<Checkpoint>, count: nat, options: Options) {
    && Spaced(Ats(cps), options.interval, options.maxCheckpoints)
    && var newest := Ats(cps)[|cps| - 1];
       newest <= count < newest + options.interval
       && options.interval != 0 && newest % options.interval == 0
  }

  /** What `maybe_store_checkpoint` does to the store. */
  ghost predicate MaybeStored(cps: seq<Checkpoint>, options: Options, cp: Checkpoint,
                              next: seq<Checkpoint>)
    requires options.Valid()
  {
    if cp.position.attemptedSteps % options.interval == 0
    then StoredNext(cps, options.maxCheckpoints, cp, next) else next == cps
  }

  lemma SpacingKept(cps: seq<Checkpoint>, count: nat, options: Options, cp: Checkpoint,
                    next: seq<Checkpoint>)
    requires options.Valid() && Even(cps, count, options)
    requires cp.position.attemptedSteps == count + 1 && MaybeStored(cps, options, cp, next)
    ensures Even(next, count + 1, options)
  {
    var newest := Ats(cps)[|cps| - 1];
    if (count + 1) % options.interval == 0 {
      StoreSpaced(cps, options.maxCheckpoints, options.interval, cp, next);
    } else if count + 1 == newest + options.interval {
      NextMultiple(newest, options.interval);
    }
  }

  /** A live step that hid no failure extends the recorded run, and the store still belongs to it. */
  lemma LiveStepRecorded(cpu: Cpu, j: Journal, h: seq<Snap>, cps: seq<Checkpoint>, options: Options,
                         host: Host, inner: HostState, next: seq<Checkpoint>)
    requires cpu.Lawful() && options.Valid() && Recorded(cpu, j, h)
    requires Stored(cpu, j, h, cps, options.maxCheckpoints)
    requires var last := h[|h| - 1];
             var run := RunLive(cpu.step(last.state.core), host, inner, None);
             var b := LiveSnap(cpu, j, last, run);
             !run.ret.Hidden?
             && MaybeStored(cps, options, Checkpoint(b.pos, cpu.save(b.state)), next)
    ensures var last := h[|h| - 1];
            var run := RunLive(cpu.step(last.state.core), host, inner, None);
            var b := LiveSnap(cpu, j, last, run);
            var j' := LiveJournal(cpu, j, last, run);
            && Recorded(cpu, j', h + [b])
            && Stored(cpu, j', h + [b], next, options.maxCheckpoints)
            && Index(b.pos) == |h|
  {
    var last := h[|h| - 1];
    var run := RunLive(cpu.step(last.state.core), host, inner, None);
    var (j', b) := (LiveJournal(cpu, j, last, run), LiveSnap(cpu, j, last, run));
    RecordAttempt(cpu, j, h, host, inner);
    ChainIndex(cpu, j, h, |h| - 1);
    StoreSurvives(cpu, j, h, j', h + [b], cps, options.maxCheckpoints);
    if b.pos.attemptedSteps % options.interval == 0 {
      assert Newer(cps, Checkpoint(b.pos, cpu.save(b.state))) by {
        assert forall i :: 0 <= i < |cps| ==> Taken(cpu, j, h, cps[i]);
      }
      StoreKeeps(cpu, j', h + [b], cps, options.maxCheckpoints,
                 Checkpoint(b.pos, cpu.save(b.state)), next);
    }
  }

  class Timeline {
    const cpu: Cpu
    const machine: Z180
    const bus: ReplayBus
    const options: Options
    var mode: Mode
    var position: Position
    var actions: seq<ActionRecord>
    var attempts: seq<AttemptRecord>
    var checkpoints: seq<Checkpoint>
    ghost var history: seq<Snap>  // the recorded run, one entry per action and attempt

    // ------------------------------------------------------------------------------ the invariant

    ghost function J(): Journal
      reads this`actions, this`attempts, bus`records
    {
      Journal(bus.records, actions, attempts)
    }

    ghost function At(): Snap
      reads this`position, machine`core, machine`debug
    {
      Snap(position, machine.State())
    }

    /** The same, with the bus error that is pending. */
    ghost function Here(): Place
      reads this`position, machine`core, machine`debug, machine`busError
    {
      Place(At(), machine.busError)
    }

    ghost predicate Wired() {
      machine.bus == bus && machine.cpu == cpu && cpu.Lawful() && options.Valid()
    }

    /** After `start`: the journal is that of `history`, the checkpoints belong to it, and the machine
        stands at an entry of it, the last one while recording. */
    ghost predicate Valid()
      reads this, machine, bus
    {
      && Wired()
      && bus.mode == mode
      && (mode != Setup ==>
            && machine.busError == None
            && Recorded(cpu, J(), history)
            && Stored(cpu, J(), history, checkpoints, options.maxCheckpoints)
            && Index(position) < |history|
            && history[Index(position)] == At()
            && (mode == Mode.Live ==> Index(position) == |history| - 1)
            && (mode == Playback ==> bus.cursor == position.busRecords))
    }

    /** The journal says what the machine does, bus record by bus record. */
    lemma JournalIsTrue()
      requires Valid() && mode != Setup
      ensures SaysTrue(cpu, J(), history)
    {
      RunSaysTrue(cpu, J(), history);
    }

    /** The checkpoints are as even as recording leaves them. */
    ghost predicate EvenlySpaced()
      reads this`checkpoints, this`attempts
    {
      Even(checkpoints, |attempts|, options)
    }

    /** The journals, the host and the recorded run; seeking and searching leave all of it alone. */
    twostate predicate SameRun()
      reads this, bus
    {
      && bus.records == old(bus.records) && bus.inner == old(bus.inner)
      && bus.liveCalls == old(bus.liveCalls)
      && actions == old(actions) && attempts == old(attempts) && checkpoints == old(checkpoints)
      && history == old(history)
    }

    // -------------------------------------------------------------------------------- construction

    constructor (cpu: Cpu, state: MachineState, host: Host, inner: HostState, options: Options)
      requires cpu.Lawful() && options.Valid()
      ensures Valid() && mode == Setup && fresh(machine) && fresh(bus)
      ensures this.cpu == cpu && this.options == options && machine.State() == state
      ensures machine.busError == None && bus.host == host && bus.inner == inner && bus.liveCalls == 0
    {
      var replayBus := new ReplayBus(host, inner);
      this.cpu, this.options, this.bus := cpu, options, replayBus;
      this.machine := new Z180(cpu, replayBus, state);
      this.mode := Setup;
      this.position := Position(0, 0, 0, 0);
      this.actions, this.attempts, this.checkpoints, this.history := [], [], [], [];
    }

    /** `Timeline::new`: the options are checked first. */
    static method New(cpu: Cpu, state: MachineState, host: Host, inner: HostState, options: Options)
      returns (r: Result<Timeline, TimelineConfigError>)
      requires cpu.Lawful()
      ensures options.interval == 0 ==> r == Failure(ZeroCheckpointInterval)
      ensures options.interval != 0 && options.maxCheckpoints < 2 ==> r == Failure(TooFewCheckpoints)
      ensures options.Valid() ==>
                && r.Success? && fresh(r.value) && fresh(r.value.machine) && fresh(r.value.bus)
                && r.value.Valid() && r.value.mode == Setup
                && r.value.cpu == cpu && r.value.options == options
                && r.value.machine.State() == state && r.value.machine.busError == None
                && r.value.bus.host == host && r.value.bus.inner == inner && r.value.bus.liveCalls == 0
    {
      if options.interval == 0 {
        return Failure(ZeroCheckpointInterval);
      }
      if options.maxCheckpoints < 2 {
        return Failure(TooFewCheckpoints);
      }
      var timeline := new Timeline(cpu, state, host, inner, options);
      r := Success(timeline);
    }

    /** A state the recording can start from: it loads again, and no bus failure is pending. */
    ghost predicate Startable()
      reads machine
    {
      cpu.Sound(machine.State()) && machine.busError == None
    }

    /** Start recording. Any state that can be saved may be started from; the recording is that of a run
        when the state loads again. */
    method Start() returns (r: Result<(), TimelineError>)
      requires Valid()
      modifies this, bus
      ensures old(mode) != Setup ==> r == Failure(WrongMode(Setup, mode)) && mode == old(mode)
                                     && Valid() && position == old(position) && SameRun()
      ensures old(mode) == Setup ==>
                && Wired() && mode == bus.mode == Mode.Live
                && bus.inner == old(bus.inner) && bus.liveCalls == old(bus.liveCalls)
                && J() == Journal([], [], [])
                && position == Position(0, machine.core.cycleCount, 0, 0)
                && history == [At()]
                && r == (if 1 < |cpu.save(machine.State())| then Success(()) else Failure(InvalidCheckpoint))
                && checkpoints == (if r.Success?
                                   then [Checkpoint(position, cpu.save(machine.State()))] else [])
                && (Startable() ==> r.Success? && Valid() && EvenlySpaced())
    {
      if mode != Setup {
        return Failure(WrongMode(Setup, mode));
      }
      bus.BeginLive();
      actions, attempts, checkpoints := [], [], [];
      mode := Mode.Live;
      position := Position(0, machine.core.cycleCount, 0, 0);
      history := [At()];
      r := StoreCheckpoint();
      assert cpu.Reloads(machine.State());
    }

    /** Keep the machine as a checkpoint at the present position, evicting one if the store is full. */
    method StoreCheckpoint() returns (r: Result<(), TimelineError>)
      requires Wired() && |checkpoints| <= options.maxCheckpoints
      modifies this`checkpoints
      ensures r == (if 1 < |cpu.save(machine.State())| then Success(()) else Failure(InvalidCheckpoint))
      ensures r.Failure? ==> checkpoints == old(checkpoints)
      ensures r.Success? ==> StoredNext(old(checkpoints), options.maxCheckpoints,
                                        Checkpoint(position, cpu.save(machine.State())), checkpoints)
    {
      var state := machine.SaveState();
      if |state| <= 1 {
        return Failure(InvalidCheckpoint);
      }
      if |checkpoints| == options.maxCheckpoints {
        var index := FindEvictable(Ats(checkpoints), position.attemptedSteps);
        checkpoints := checkpoints[..index] + checkpoints[index + 1..];
      }
      checkpoints := checkpoints + [Checkpoint(position, state)];
      r := Success(());
    }

    method MaybeStoreCheckpoint() returns (r: Result<(), TimelineError>)
      requires Wired() && |checkpoints| <= options.maxCheckpoints
      modifies this`checkpoints
      ensures r == (if position.attemptedSteps % options.interval != 0 || 1 < |cpu.save(machine.State())|
                    then Success(()) else Failure(InvalidCheckpoint))
      ensures r.Failure? ==> checkpoints == old(checkpoints)
      ensures r.Success? ==> MaybeStored(old(checkpoints), options,
                                         Checkpoint(position, cpu.save(machine.State())), checkpoints)
    {
      r := Success(());
      if position.attemptedSteps % options.interval == 0 {
        r := StoreCheckpoint();
      }
    }

    // ----------------------------------------------------------------------------------- recording

    method Apply(stimulus: Stimulus) returns (r: Result<StimulusOutcome, TimelineError>)
      requires Valid()
      modifies this`position, this`actions, this`history, machine`core
      ensures Valid() && mode == old(mode) && (old(EvenlySpaced()) ==> EvenlySpaced())
      ensures old(mode) != Mode.Live ==>
                r == Failure(WrongMode(Mode.Live, mode)) && At() == old(At()) && SameRun()
      ensures old(mode) == Mode.Live ==>
                var (core', outcome) := cpu.stimulate(old(machine.core), stimulus);
                && r == Success(outcome)
                && actions == old(actions)
                   + [ActionRecord(old(position).attemptedSteps, Stimulate(stimulus, outcome))]
                && position == old(position).(actions := |actions|)
                && machine.core == core'
                && history == old(history) + [At()]
    {
      if mode != Mode.Live {
        return Failure(WrongMode(Mode.Live, mode));
      }
      ghost var (j, a) := (J(), At());
      ChainIndex(cpu, j, history, |history| - 1);
      var outcome := machine.ExecuteStimulus(stimulus);
      RecordAction(cpu, j, history, Stimulate(stimulus, outcome));
      actions := actions + [ActionRecord(position.attemptedSteps, Stimulate(stimulus, outcome))];
      position := position.(actions := |actions|);
      history := history + [At()];
      StoreSurvives(cpu, j, history[..|history| - 1], J(), history, checkpoints, options.maxCheckpoints);
      r := Success(outcome);
    }

    method DrainOutput(output: Output) returns (r: Result<Drained, TimelineError>)
      requires Valid()
      modifies this`position, this`actions, this`history, machine`core, machine`debug
      ensures Valid() && mode == old(mode) && (old(EvenlySpaced()) ==> EvenlySpaced())
      ensures old(mode) != Mode.Live ==>
                r == Failure(WrongMode(Mode.Live, mode)) && At() == old(At()) && SameRun()
      ensures old(mode) == Mode.Live ==>
                && r.Success?
                && (output == Events ==>
                      r.value == EventsOut(old(machine.debug).events) && machine.core == old(machine.core)
                      && machine.debug == old(machine.debug).Drained())
                && (output != Events ==>
                      (machine.core, r.value) == cpu.drain(old(machine.core), output)
                      && machine.debug == old(machine.debug))
                && actions == old(actions)
                   + [ActionRecord(old(position).attemptedSteps, Drain(output, r.value))]
                && position == old(position).(actions := |actions|)
                && history == old(history) + [At()]
    {
      if mode != Mode.Live {
        return Failure(WrongMode(Mode.Live, mode));
      }
      ghost var (j, a) := (J(), At());
      ChainIndex(cpu, j, history, |history| - 1);
      var drained := machine.ExecuteDrain(output);
      RecordAction(cpu, j, history, Drain(output, drained));
      actions := actions + [ActionRecord(position.attemptedSteps, Drain(output, drained))];
      position := position.(actions := |actions|);
      history := history + [At()];
      StoreSurvives(cpu, j, history[..|history| - 1], J(), history, checkpoints, options.maxCheckpoints);
      r := Success(drained);
    }

    /** The live run of the next step. */
    ghost function NextLive(): LiveRun
      reads bus`inner, machine`core
    {
      RunLive(cpu.step(machine.core), bus.host, bus.inner, None)
    }

    /** A live step did what the machine and the host make of it and was logged as such; unless it hid a
        bus failure from its caller, it is the next entry of the recorded run. */
    twostate predicate Stepped(new r: Result<nat, TimelineError>)
      reads this, machine, bus
    {
      var run := old(NextLive());
      && At() == LiveSnap(cpu, old(J()), old(At()), run)
      && J() == LiveJournal(cpu, old(J()), old(At()), run)
      && history == old(history) + [At()]
      && r == PublicResult(run.ret)
      && (match run.ret
          case Returned(cycles) => r == Success(cycles)
          case Hidden(cycles, _) => r == Success(cycles)
          case Threw(error) => error.LiveHost? && r == Failure(HostFailed(error.error)))
      && bus.inner == run.host && bus.liveCalls == old(bus.liveCalls) + |run.records|
      && mode == Mode.Live
      && machine.busError == LeftPending(run.ret)
      && (!run.ret.Hidden? ==> Valid() && (old(EvenlySpaced()) ==> EvenlySpaced()))
    }

    method TryStepLive() returns (r: Result<nat, TimelineError>)
      requires Valid() && mode == Mode.Live
      modifies this`position, this`attempts, this`checkpoints, this`history, machine, bus
      ensures Stepped(r)
    {
      hide Linked, Taken, Saved, Increasing, Spaced, RunLive, ObserveAll, PublicResult;
      ghost var (j, h, a, run) := (J(), history, At(), NextLive());
      ChainIndex(cpu, j, h, |h| - 1);
      ChainSound(cpu, j, h, |h| - 1);
      ghost var (cps, inner) := (checkpoints, bus.inner);
      FailedCallIsLast(cpu.step(machine.core), bus.host, bus.inner);
      PublicResultIs(run.ret);
      r := LogAttempt();
      assert cpu.Reloads(machine.State());
      var stored := MaybeStoreCheckpoint();
      if stored.Failure? {
        return Failure(InvalidCheckpoint);
      }
      if !run.ret.Hidden? {
        LiveStepRecorded(cpu, j, h, cps, options, bus.host, inner, checkpoints);
        if Even(cps, |j.attempts|, options) {
          SpacingKept(cps, |j.attempts|, options, Checkpoint(position, cpu.save(machine.State())),
                      checkpoints);
        }
      }
    }

    /** The step itself and its log entry. */
    method LogAttempt() returns (r: Result<nat, TimelineError>)
      requires Wired() && bus.mode == Mode.Live && machine.busError == None
      requires |attempts| == position.attemptedSteps && cpu.Sound(machine.State())
      modifies this`position, this`attempts, this`history, machine, bus
      ensures At() == LiveSnap(cpu, old(J()), old(At()), old(NextLive())) && cpu.Sound(machine.State())
      ensures bus.inner == old(NextLive()).host && bus.mode == Mode.Live
      ensures bus.liveCalls == old(bus.liveCalls) + |old(NextLive()).records|
      ensures machine.busError == LeftPending(old(NextLive()).ret)
      ensures history == old(history) + [At()]
      ensures J() == LiveJournal(cpu, old(J()), old(At()), old(NextLive()))
      ensures r == PublicResult(old(NextLive()).ret)
    {
      ghost var run := NextLive();
      FailedCallIsLast(cpu.step(machine.core), bus.host, bus.inner);
      assert cpu.StepsGrounded(machine.core);
      LiveStaysGrounded(cpu, cpu.step(machine.core), machine.core.cycleCount, bus.host, bus.inner,
                        None);
      ObserveAllSound(machine.debug, run.notes);
      var result := machine.TryStep();
      position := Position(position.attemptedSteps + 1, machine.core.cycleCount, |actions|,
                           |bus.records|);
      history := history + [At()];
      if result.Success? {
        attempts := attempts + [AttemptRecord(Completed(result.value), position)];
        r := Success(result.value);
      } else {
        r := Failure(MapBusError(result.error));
        if result.error.LiveHost? {
          var busRecord := if position.busRecords == 0 then 0 else position.busRecords - 1;
          attempts := attempts + [AttemptRecord(HostFailure(busRecord), position)];
        }
      }
    }

    // ----------------------------------------------------------------------------------- replaying

    /** Everything a replay leaves alone. */
    twostate predicate OnlyReplayed()
      reads this, bus
    {
      SameRun() && bus.mode == old(bus.mode) && mode == old(mode)
    }

    method ReplayActionsUntil(limit: nat, lenient: bool) returns (r: Result<(), TimelineError>)
      requires Wired()
      modifies this`position, machine`core, machine`debug
      ensures var end := PerformUntil(cpu, J(), lenient, old(At()), limit);
              && (r.Success? <==> end.Some?)
              && (r.Success? ==> At() == end.value)
    {
      if limit > |actions| {
        return Failure(InvalidPosition(position));
      }
      while position.actions < limit
        invariant PerformUntil(cpu, J(), lenient, old(At()), limit)
               == PerformUntil(cpu, J(), lenient, At(), limit)
        decreases limit - position.actions
      {
        var index := position.actions;
        var record := actions[index];
        if record.attemptedStep != position.attemptedSteps {
          return Failure(ActionDiverged(index));
        }
        match record.action {
          case Stimulate(stimulus, outcome) =>
            var actual := machine.ExecuteStimulus(stimulus);
            if actual != outcome {
              return Failure(ActionDiverged(index));
            }
          case Drain(output, drained) =>
            var actual := machine.ExecuteDrain(output);
            if !(actual == drained || (lenient && output == Events)) {
              return Failure(ActionDiverged(index));
            }
        }
        position := position.(actions := index + 1);
      }
      r := Success(());
    }

    method ReplayBoundaryActions(lenient: bool) returns (r: Result<(), TimelineError>)
      requires Wired()
      modifies this`position, machine`core, machine`debug
      ensures var end := PerformUntil(cpu, J(), lenient, old(At()),
                           BoundaryLimit(actions, old(position).actions, old(position).attemptedSteps));
              && (r.Success? <==> end.Some?)
              && (r.Success? ==> At() == end.value)
    {
      var limit := position.actions;
      while limit < |actions| && actions[limit].attemptedStep == position.attemptedSteps
        invariant position.actions <= limit
        invariant BoundaryLimit(actions, limit, position.attemptedSteps)
               == BoundaryLimit(actions, position.actions, position.attemptedSteps)
        decreases |actions| - limit
      {
        limit := limit + 1;
      }
      r := ReplayActionsUntil(limit, lenient);
    }

    /** Replay the actions at this boundary and the next attempted step. */
    method ReplayNextAttempt(lenient: bool) returns (r: Result<AttemptOutcome, TimelineError>)
      requires Wired() && bus.mode == Playback && bus.cursor == position.busRecords
      modifies this`position, machine, bus
      ensures OnlyReplayed()
      ensures var end := RedoNext(cpu, J(), lenient, old(Here()));
              && (r.Success? <==> end.Some?)
              && (r.Success? ==>
                    && Here() == end.value && bus.cursor == position.busRecords
                    && r.value == attempts[old(position).attemptedSteps].outcome)
      ensures old(position).attemptedSteps >= |attempts| ==>
                r == Failure(InvalidPosition(old(position))) && Here() == old(Here())
                && bus.cursor == old(bus.cursor)
    {
      if position.attemptedSteps >= |attempts| {
        return Failure(InvalidPosition(position));
      }
      var expected := attempts[position.attemptedSteps];
      var replayed := ReplayBoundaryActions(lenient);
      if replayed.Failure? {
        return Failure(replayed.error);
      }
      r := ReplayStep(expected);
    }

    /** Re-execute one step and compare it with its record. */
    method ReplayStep(expected: AttemptRecord) returns (r: Result<AttemptOutcome, TimelineError>)
      requires Wired() && bus.mode == Playback && bus.cursor == position.busRecords
      requires position.attemptedSteps < |attempts| && expected == attempts[position.attemptedSteps]
      modifies this`position, machine, bus
      ensures OnlyReplayed()
      ensures var end := Redo(cpu, J(), old(Here()));
              && (r.Success? <==> end.Some?)
              && (r.Success? ==> Here() == end.value && bus.cursor == position.busRecords
                                 && r.value == expected.outcome)
    {
      var actual := machine.TryStep();
      position := Position(position.attemptedSteps + 1, machine.core.cycleCount, position.actions,
                           bus.cursor);
      if actual.Success? {
        if expected.outcome != Completed(actual.value) {
          return Failure(BusDiverged(position.busRecords, None, MemRead(0)));
        }
      } else if !actual.error.RecordedHostFailure?
                || expected.outcome != HostFailure(actual.error.record) {
        return Failure(MapBusError(actual.error));
      }
      if position != expected.end {
        return Failure(InvalidPosition(expected.end));
      }
      r := Success(expected.outcome);
    }

    // ------------------------------------------------------------------------------------- seeking

    method ValidatePosition(target: Position) returns (r: Result<(), TimelineError>)
      requires 0 < |checkpoints|
      ensures r == if ValidPosition(J(), checkpoints[0].position, target)
                   then Success(()) else Failure(InvalidPosition(target))
    {
      if target.attemptedSteps > |attempts| || target.actions > |actions| {
        return Failure(InvalidPosition(target));
      }
      var expected := if target.attemptedSteps == 0 then checkpoints[0].position
                      else attempts[target.attemptedSteps - 1].end;
      if target.cycle != expected.cycle || target.busRecords != expected.busRecords {
        return Failure(InvalidPosition(target));
      }
      if (exists i :: 0 <= i < target.actions && actions[i].attemptedStep > target.attemptedSteps)
         || (target.actions < |actions|
             && actions[target.actions].attemptedStep < target.attemptedSteps) {
        return Failure(InvalidPosition(target));
      }
      r := Success(());
    }

    method ChooseCheckpoint(target: Position) returns (r: Option<nat>)
      ensures r == Choose(checkpoints, target)
    {
      var i := |checkpoints|;
      while i > 0
        invariant 0 <= i <= |checkpoints|
        invariant Choose(checkpoints[..i], target) == Choose(checkpoints, target)
      {
        i := i - 1;
        assert checkpoints[..i + 1][..i] == checkpoints[..i];
        if Usable(checkpoints[i], target) {
          return Some(i);
        }
      }
      r := None;
    }

    /** Load a checkpoint and re-execute up to `target`. `executed` counts the re-executed attempts. */
    method SeekInternal(target: Position) returns (r: Result<(), TimelineError>, ghost executed: nat)
      requires Wired()
      modifies this`position, this`mode, machine, bus
      ensures SameRun()
      ensures var end := RedoSeek(cpu, J(), checkpoints, target, old(machine.busError));
              && (r.Success? <==> end.Some?)
              && (r.Success? ==> Here() == end.value)
      ensures r.Success? ==>
                && mode == bus.mode == Playback && bus.cursor == position.busRecords
                && Choose(checkpoints, target).Some?
                && executed == target.attemptedSteps
                   - Ats(checkpoints)[Choose(checkpoints, target).value]
      ensures r.Failure? && Choose(checkpoints, target).None? ==> r.error == InvalidPosition(target)
    {
      executed := 0;
      var chosen := ChooseCheckpoint(target);
      if chosen == None {
        return Failure(InvalidPosition(target)), executed;
      }
      var checkpoint := checkpoints[chosen.value];
      var loaded := machine.LoadState(checkpoint.state);
      if !loaded {
        return Failure(BadState), executed;
      }
      var begun := bus.BeginPlayback(checkpoint.position.busRecords);
      if begun.Failure? {
        return Failure(MapBusError(begun.error)), executed;
      }
      mode := Playback;
      position := checkpoint.position;
      ghost var from := Here();
      while position.attemptedSteps < target.attemptedSteps
        invariant SameRun() && mode == bus.mode == Playback && bus.cursor == position.busRecords
        invariant position.attemptedSteps <= target.attemptedSteps
        invariant executed == position.attemptedSteps - from.at.pos.attemptedSteps
        invariant RedoTo(cpu, J(), Here(), target) == RedoTo(cpu, J(), from, target)
        decreases target.attemptedSteps - position.attemptedSteps
      {
        var outcome := ReplayNextAttempt(false);
        executed := executed + 1;
        if outcome.Failure? {
          return Failure(outcome.error), executed;
        }
      }
      var replayed := ReplayActionsUntil(target.actions, false);
      if replayed.Failure? {
        return Failure(replayed.error), executed;
      }
      if position != target {
        return Failure(InvalidPosition(target)), executed;
      }
      r := Success(());
    }

    /** Go to a position of the recorded run. Every position the run was ever at can be reached, nothing
        else can, and the live host is not asked for anything. */
    method Seek(target: Position) returns (r: Result<(), TimelineError>, ghost executed: nat)
      requires Valid()
      modifies this`position, this`mode, machine, bus
      ensures Valid() && SameRun()
      ensures old(mode) == Setup ==> r == Failure(WrongMode(Mode.Live, Setup))
      ensures old(mode) != Setup ==>
                (r.Success? <==> WasAt(history, target))
      ensures r.Failure? ==> At() == old(At()) && mode == old(mode) && bus.cursor == old(bus.cursor)
      ensures r.Success? ==>
                && WasAt(history, target) && At() == history[Index(target)]
                && position == target && mode == Playback && bus.cursor == target.busRecords
      ensures r.Success? && EvenlySpaced() ==>
                executed < Max(options.interval,
                               2 * Ats(checkpoints)[|checkpoints| - 1] / (options.maxCheckpoints - 1))
    {
      executed := 0;
      if mode == Setup {
        return Failure(WrongMode(Mode.Live, Setup)), executed;
      }
      hide Recorded, Stored, Even, ValidPosition, RedoSeek, Choose, MapBusError;
      SeekFacts(cpu, J(), history, checkpoints, options, target);
      r := ValidatePosition(target);
      if r.Failure? {
        return;
      }
      r, executed := SeekInternal(target);
    }

    // ------------------------------------------------------------------------------ stepping again

    method TryStep() returns (r: Result<nat, TimelineError>)
      requires Valid()
      modifies this`position, this`attempts, this`checkpoints, this`history, machine, bus
      ensures old(mode) == Setup ==> r == Failure(WrongMode(Mode.Live, Setup)) && Valid() && SameRun()
      ensures old(mode) == Mode.Live ==> Stepped(r)
      ensures old(mode) == Playback ==> Replayed(r)
    {
      if mode == Setup {
        r := Failure(WrongMode(Mode.Live, Setup));
      } else if mode == Mode.Live {
        r := TryStepLive();
      } else {
        r := TryStepPlayback();
      }
    }

    /** A playback step goes to the entry right after the next recorded attempt and returns what that
        attempt returned; past the end it does nothing. */
    twostate predicate Replayed(new r: Result<nat, TimelineError>)
      reads this, machine, bus
    {
      && Valid() && SameRun() && mode == old(mode)
      && (if old(position).attemptedSteps < |attempts| then
            var attempt := attempts[old(position).attemptedSteps];
            && WasAt(history, attempt.end) && At() == history[Index(attempt.end)]
            && r == (match attempt.outcome
                     case Completed(cycles) => Success(cycles)
                     case HostFailure(record) => Failure(HostFailedThen(record)))
          else r == Failure(InvalidPosition(position)) && At() == old(At()))
    }

    method TryStepPlayback() returns (r: Result<nat, TimelineError>)
      requires Valid() && mode == Playback
      modifies this`position, machine, bus
      ensures Replayed(r)
    {
      if position.attemptedSteps < |attempts| {
        ghost var before := AttemptFollows(cpu, J(), history, Index(position));
        RedoNextIs(cpu, J(), false, At());
      }
      var outcome := ReplayNextAttempt(false);
      if outcome.Failure? {
        return Failure(outcome.error);
      }
      match outcome.value
      case Completed(cycles) => r := Success(cycles);
      case HostFailure(record) => r := Failure(HostFailedThen(record));
    }

    /** The position right after an attempt; attempt zero is the initial checkpoint. */
    method PositionAtAttempt(attempt: nat) returns (r: Option<Position>)
      requires Valid() && mode != Setup
      ensures r.Some? <==> attempt <= |attempts|
      ensures r.Some? ==> WasAt(history, r.value) && r.value.attemptedSteps == attempt
      ensures r.Some? ==>
                forall i :: 0 <= i < |history| && history[i].pos.attemptedSteps == attempt ==>
                  r.value.actions <= history[i].pos.actions
    {
      if attempt <= |attempts| {
        ChainIndex(cpu, J(), history, |history| - 1);
        ChainReaches(cpu, J(), history, attempt, |history| - 1);
        forall i | 0 <= i < |history| && history[i].pos.attemptedSteps == attempt
          ensures EndOf(J(), history[0].pos, attempt).actions <= history[i].pos.actions
        {
          SameBoundary(cpu, J(), history, i);
        }
      }
      if attempt == 0 {
        return Some(checkpoints[0].position);
      }
      r := if attempt - 1 < |attempts| then Some(attempts[attempt - 1].end) else None;
    }

    /** The last position of the recorded run. */
    method RecordedEnd() returns (r: Option<Position>)
      requires Valid() && mode != Setup
      ensures r == Some(history[|history| - 1].pos)
    {
      ChainIndex(cpu, J(), history, |history| - 1);
      SameBoundary(cpu, J(), history, |history| - 1);
      var end := if |attempts| > 0 then attempts[|attempts| - 1].end else checkpoints[0].position;
      r := Some(end.(actions := |actions|));
    }

    // ---------------------------------------------------------------------------- the write search

    /** The watches of a search that starts at `start`. */
    ghost function ProbeWatches(start: Position, base: nat, size: nat): Debug
      reads this`history
      requires WasAt(history, start)
    {
      history[Index(start)].state.debug.AddWatch(base, size, WatchWrite)
    }

    /** Find the first attempt between two positions that wrote into a physical window. Whatever the
        answer, the timeline is as it was before. */
    method FindFirstWrite(start: Position, end: Position, base: nat, size: nat)
      returns (r: Result<Option<WriteHit>, TimelineError>)
      requires Valid()
      modifies this`position, this`mode, machine, bus
      ensures Valid() && SameRun() && At() == old(At()) && mode == old(mode)
      ensures bus.cursor == old(bus.cursor) && machine.busError == old(machine.busError)
      ensures old(mode) == Setup ==> r == Failure(WrongMode(Mode.Live, Setup))
      ensures old(mode) != Setup ==>
                if !WasAt(history, start) then r == Failure(InvalidPosition(start))
                else if !WasAt(history, end) || start.attemptedSteps > end.attemptedSteps then
                  r == Failure(InvalidPosition(end))
                else
                  && (r.Failure? ==> r.error == EventHistoryLost)
                  && Answers(cpu, J(), history, ProbeWatches(start, base, size), base, size,
                             start.attemptedSteps, end.attemptedSteps, AnswerOf(r))
    {
      if mode == Setup {
        return Failure(WrongMode(Mode.Live, Setup));
      }
      hide Linked, Taken, Saved, Increasing, ValidPosition, Answers;
      ValidPositionIff(cpu, J(), history, start);
      ValidPositionIff(cpu, J(), history, end);
      var startValid := ValidatePosition(start);
      if startValid.Failure? {
        return Failure(startValid.error);
      }
      var endValid := ValidatePosition(end);
      if endValid.Failure? {
        return Failure(endValid.error);
      }
      if start.attemptedSteps > end.attemptedSteps {
        return Failure(InvalidPosition(end));
      }
      ChainSound(cpu, J(), history, Index(position));
      assert cpu.Reloads(machine.State());
      var savedState := machine.SaveState();
      if |savedState| <= 1 {
        return Failure(InvalidCheckpoint);
      }
      var savedPosition, savedMode, savedCursor := position, mode, bus.cursor;

      r := FindFirstWriteProbe(start, end, base, size);
      var restored := machine.LoadState(savedState);
      bus.RestoreMode(savedMode, savedCursor);
      mode, position := savedMode, savedPosition;
      if !restored {
        r := Failure(RestoreFailed);
      }
    }

    method FindFirstWriteProbe(start: Position, end: Position, base: nat, size: nat)
      returns (r: Result<Option<WriteHit>, TimelineError>)
      requires Valid() && mode != Setup
      requires WasAt(history, start) && WasAt(history, end)
      requires start.attemptedSteps <= end.attemptedSteps
      modifies this`position, this`mode, machine, bus
      ensures SameRun() && machine.busError == None
      ensures r.Failure? ==> r.error == EventHistoryLost
      ensures Answers(cpu, J(), history, ProbeWatches(start, base, size), base, size,
                      start.attemptedSteps, end.attemptedSteps, AnswerOf(r))
    {
      SeekFacts(cpu, J(), history, checkpoints, options, start);
      ChainIndex(cpu, J(), history, Index(end));
      ChainSound(cpu, J(), history, Index(start));
      var sought, executed := SeekInternal(start);
      match sought {
        case Success(_) =>
        case Failure(error) => return Failure(error);
      }
      machine.AddMemWatch(base, size, WatchWrite);
      var stale := machine.DrainEvents();
      machine.ClearEventsLost();
      WatchAdded(history[Index(start)].state.debug, base, size);
      r := ProbeAttempts(end.attemptedSteps, Index(start), ProbeWatches(start, base, size), base, size);
    }

    /** The probe's loop, from entry `from` of the run. */
    method ProbeAttempts(last: nat, ghost from: nat, ghost w: Debug, base: nat, size: nat)
      returns (r: Result<Option<WriteHit>, TimelineError>)
      requires Wired() && mode == bus.mode == Playback && bus.cursor == position.busRecords
      requires machine.busError == None && position.attemptedSteps <= last <= |attempts|
      requires Recorded(cpu, J(), history) && from < |history| && Alike(history[from], At())
      requires ProbeReady(machine.debug, w) && WatchesWindow(w, base, size)
      modifies this`position, machine, bus
      ensures OnlyReplayed() && machine.busError == None
      ensures r.Failure? ==> r.error == EventHistoryLost
      ensures Answers(cpu, J(), history, w, base, size, old(position).attemptedSteps, last, AnswerOf(r))
    {
      ghost var i: nat, start: nat := from, position.attemptedSteps;
      while position.attemptedSteps < last
        invariant OnlyReplayed() && bus.cursor == position.busRecords && machine.busError == None
        invariant start <= position.attemptedSteps <= last
        invariant i < |history| && Alike(history[i], At())
        invariant ProbeReady(machine.debug, w)
        invariant forall k :: start <= k < position.attemptedSteps ==>
                    Quiet(cpu, J(), history, w, base, size, k)
        decreases last - position.attemptedSteps
      {
        var attemptedStep := position.attemptedSteps;
        i := ProbeNextAttempt(i, w, base, size);
        if machine.debug.lost {
          return Failure(EventHistoryLost);
        }
        var events := machine.DrainEvents();
        var event := FirstHit(events, base, size);
        if event.Some? {
          return Success(Some(WriteHit(attemptedStep, event.value)));
        }
      }
      r := Success(None);
    }

    /** One attempt of the probe goes the way the run went; afterwards the event ring tells whether it
        wrote into the window, or that it overflowed. */
    method ProbeNextAttempt(ghost i: nat, ghost w: Debug, base: nat, size: nat)
      returns (ghost next: nat)
      requires Wired() && bus.mode == Playback && bus.cursor == position.busRecords
      requires machine.busError == None && position.attemptedSteps < |attempts|
      requires Recorded(cpu, J(), history) && i < |history| && Alike(history[i], At())
      requires ProbeReady(machine.debug, w) && WatchesWindow(w, base, size)
      modifies this`position, machine, bus
      ensures OnlyReplayed() && bus.cursor == position.busRecords && machine.busError == None
      ensures position.attemptedSteps == old(position).attemptedSteps + 1
      ensures next < |history| && Alike(history[next], At())
      ensures var k := old(position).attemptedSteps;
              && (machine.debug.lost <==> !Fits(cpu, J(), history, w, k))
              && (!machine.debug.lost ==>
                    && FirstHit(machine.debug.events, base, size)
                       == FirstWrite(NotesOf(cpu, J(), history, k), base, size)
                    && ProbeReady(machine.debug.Drained(), w))
    {
      ghost var before := NextAttemptAlike(cpu, J(), history, i, At());
      ghost var (d, k) := (machine.debug, position.attemptedSteps);
      RedoNextIs(cpu, J(), true, At());
      var outcome := ReplayNextAttempt(true);
      ChainIndex(cpu, J(), history, before + 1);
      ProbeSees(d, w, NotesOf(cpu, J(), history, k), machine.debug, base, size);
      next := before + 1;
    }
  }

  /** The debug layer at the head of the probe's loop: the watches of the search, no events, no loss. */
  predicate ProbeReady(d: Debug, w: Debug) {
    d.watches == w.watches && d.capacity == w.capacity && d.events == [] && !d.lost
  }

  lemma WatchAdded(d: Debug, base: nat, size: nat)
    ensures WatchesWindow(d.AddWatch(base, size, WatchWrite), base, size)
  {
    var w := d.AddWatch(base, size, WatchWrite).watches;
    assert w[|w| - 1].kind != WatchRead;
  }

  function AnswerOf(r: Result<Option<WriteHit>, TimelineError>): Answer {
    match r
    case Success(None) => NoWrite
    case Success(Some(hit)) => Found(hit)
    case Failure(_) => Incomplete
  }

  /** What the debug layer shows after an attempt of the probe. */
  lemma ProbeSees(d: Debug, w: Debug, notes: seq<Note>, after: Debug, base: nat, size: nat)
    requires ProbeReady(d, w)
    requires exists d' :: Undisturbed(d, d') && after == ObserveAll(d', notes)
    requires WatchesWindow(w, base, size)
    ensures after.lost <==> |Seen(w, notes)| > w.capacity
    ensures !after.lost ==> FirstHit(after.events, base, size) == FirstWrite(notes, base, size)
                            && ProbeReady(after.Drained(), w)
  {
    assert d.Drained() == d;
    RingIsExactOrSaysSo(d, w, notes);
    assert d.events + Seen(w, notes) == Seen(w, notes);
    FirstHitIsFirstWrite(w, notes, base, size);
  }

  /** All that a seek relies on: validity, arrival and distance. */
  lemma SeekFacts(cpu: Cpu, j: Journal, h: seq<Snap>, cps: seq<Checkpoint>, options: Options,
                  target: Position)
    requires cpu.Lawful() && options.Valid()
    requires Recorded(cpu, j, h) && Stored(cpu, j, h, cps, options.maxCheckpoints)
    ensures 0 < |cps| && cps[0].position == h[0].pos
    ensures ValidPosition(j, h[0].pos, target) <==> WasAt(h, target)
    ensures WasAt(h, target) ==>
              && RedoSeek(cpu, j, cps, target, None) == Some(Place(h[Index(target)], None))
              && Choose(cps, target).Some?
              && (Even(cps, |j.attempts|, options) ==>
                    target.attemptedSteps - Ats(cps)[Choose(cps, target).value]
                    < Max(options.interval, 2 * Ats(cps)[|cps| - 1] / (options.maxCheckpoints - 1)))
  {
    ValidPositionIff(cpu, j, h, target);
    if ValidPosition(j, h[0].pos, target) {
      SeekArrives(cpu, j, h, cps, options.maxCheckpoints, target);
      RedoSeekIs(cpu, j, cps, target);
      if Even(cps, |j.attempts|, options) {
        SeekIsShort(cps, |j.attempts|, options, target, Choose(cps, target).value);
      }
    }
  }

  /** The distance from the chosen checkpoint is below the spacing bound. */
  lemma SeekIsShort(cps: seq<Checkpoint>, count: nat, options: Options, target: Position, i: nat)
    requires options.Valid() && Even(cps, count, options) && target.attemptedSteps <= count
    requires i < |cps| && Ats(cps)[i] <= target.attemptedSteps
    requires i + 1 < |cps| ==> target.attemptedSteps < Ats(cps)[i + 1]
    ensures target.attemptedSteps - Ats(cps)[i]
          < Max(options.interval, 2 * Ats(cps)[|cps| - 1] / (options.maxCheckpoints - 1))
  {
    if i + 1 < |cps| {
      SpacingBound(Ats(cps), options.interval, options.maxCheckpoints, i + 1);
    }
  }
}
