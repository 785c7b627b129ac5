/** Whole sessions with a timeline: any interleaving of inputs, drains and steps, and then a return. */
module Scenarios {
  import opened Basics
  import opened Machine
  import opened Transcript
  import opened ReplayBuses
  import opened Journals
  import opened Timelines

  datatype Operation = Give(stimulus: Stimulus) | Take(output: Output) | Step

  // ------------------------------------------------- what the CPU and the host make of operations

  /** A recording under way: its journal, the place it has reached, the host behind the bus, and the bus
      error that the last step left pending. */
  datatype Session = Session(journal: Journal, at: Snap, inner: HostState, pending: Option<BusError>)

  function StepRun(cpu: Cpu, host: Host, s: Session): LiveRun {
    RunLive(cpu.step(s.at.state.core), host, s.inner, s.pending)
  }

  /** The next session after an action that leaves the machine in `state`. */
  function Logged(s: Session, action: Action, state: MachineState): Session {
    var actions := s.journal.actions + [ActionRecord(s.at.pos.attemptedSteps, action)];
    s.(journal := s.journal.(actions := actions), at := Snap(s.at.pos.(actions := |actions|), state))
  }

  /** What one operation makes of a recording. */
  function Next(cpu: Cpu, host: Host, s: Session, op: Operation): Session {
    var st := s.at.state;
    match op
    case Give(stimulus) =>
      var (core, outcome) := cpu.stimulate(st.core, stimulus);
      Logged(s, Stimulate(stimulus, outcome), st.(core := core))
    case Take(output) =>
      if output == Events then
        Logged(s, Drain(output, EventsOut(st.debug.events)), st.(debug := st.debug.Drained()))
      else
        var (core, drained) := cpu.drain(st.core, output);
        Logged(s, Drain(output, drained), st.(core := core))
    case Step =>
      var run := StepRun(cpu, host, s);
      Session(LiveJournal(cpu, s.journal, s.at, run), LiveSnap(cpu, s.journal, s.at, run), run.host,
              LeftPending(run.ret))
  }

  /** The operation is a step that returns normally with a bus error pending. */
  predicate Hides(cpu: Cpu, host: Host, s: Session, op: Operation) {
    op == Step && StepRun(cpu, host, s).ret.Hidden?
  }

  /** The session after all the operations. */
  function Run(cpu: Cpu, host: Host, s: Session, ops: seq<Operation>): Session {
    if ops == [] then s
    else Next(cpu, host, Run(cpu, host, s, ops[..|ops| - 1]), ops[|ops| - 1])
  }

  /** The places after each of the operations. */
  function Trail(cpu: Cpu, host: Host, s: Session, ops: seq<Operation>): (trail: seq<Snap>)
    ensures |trail| == |ops|
  {
    if ops == [] then []
    else Trail(cpu, host, s, ops[..|ops| - 1]) + [Run(cpu, host, s, ops).at]
  }

  /** None of the operations hides a bus failure. */
  predicate Clean(cpu: Cpu, host: Host, s: Session, ops: seq<Operation>) {
    forall k :: 0 <= k < |ops| ==> !Hides(cpu, host, Run(cpu, host, s, ops[..k]), ops[k])
  }

  lemma {:induction false} RunAppends(cpu: Cpu, host: Host, s: Session, a: seq<Operation>,
                                      b: seq<Operation>)
    ensures Run(cpu, host, s, a + b) == Run(cpu, host, Run(cpu, host, s, a), b)
    ensures Trail(cpu, host, s, a + b)
         == Trail(cpu, host, s, a) + Trail(cpu, host, Run(cpu, host, s, a), b)
    decreases |b|
  {
    if b == [] {
      assert a + b == a;
    } else {
      assert (a + b)[..|a + b| - 1] == a + b[..|b| - 1];
      RunAppends(cpu, host, s, a, b[..|b| - 1]);
    }
  }

  lemma CleanAppends(cpu: Cpu, host: Host, s: Session, a: seq<Operation>, b: seq<Operation>)
    ensures Clean(cpu, host, s, a + b)
       <==> Clean(cpu, host, s, a) && Clean(cpu, host, Run(cpu, host, s, a), b)
  {
    forall k | 0 <= k < |a|
      ensures (a + b)[..k] == a[..k] && (a + b)[k] == a[k]
    {
    }
    forall k | 0 <= k < |b|
      ensures (a + b)[..|a| + k] == a + b[..k] && (a + b)[|a| + k] == b[k]
      ensures Run(cpu, host, s, a + b[..k]) == Run(cpu, host, Run(cpu, host, s, a), b[..k])
    {
      RunAppends(cpu, host, s, a, b[..k]);
    }
    if Clean(cpu, host, s, a + b) {
      forall k | 0 <= k < |b|
        ensures !Hides(cpu, host, Run(cpu, host, Run(cpu, host, s, a), b[..k]), b[k])
      {
        assert !Hides(cpu, host, Run(cpu, host, s, (a + b)[..|a| + k]), (a + b)[|a| + k]);
      }
    }
  }

  // ------------------------------------------------------------------------ carrying them out

  /** The session a timeline is in. */
  ghost function SessionOf(timeline: Timeline): Session
    reads timeline, timeline.machine, timeline.bus
  {
    Session(timeline.J(), timeline.At(), timeline.bus.inner, timeline.machine.busError)
  }

  /** Bus calls made outside of the recording. */
  ghost function Unrecorded(timeline: Timeline): int
    reads timeline.bus`liveCalls, timeline.bus`records
  {
    timeline.bus.liveCalls - |timeline.bus.records|
  }

  /** The timeline is in the session that `ops` make of `s`, with one more entry per operation in its run,
      and every bus call went into the journal. */
  ghost predicate Reached(timeline: Timeline, s: Session, h: seq<Snap>, calls: int, ops: seq<Operation>)
    reads timeline, timeline.machine, timeline.bus
  {
    && SessionOf(timeline) == Run(timeline.cpu, timeline.bus.host, s, ops)
    && timeline.history == h + Trail(timeline.cpu, timeline.bus.host, s, ops)
    && Unrecorded(timeline) == calls
  }

  /** Carries out one operation while recording. */
  method CarryOut(timeline: Timeline, op: Operation)
    requires timeline.Valid() && timeline.mode == Mode.Live
    modifies timeline, timeline.machine, timeline.bus
    ensures var (cpu, host, s) := (timeline.cpu, timeline.bus.host, old(SessionOf(timeline)));
            && SessionOf(timeline) == Next(cpu, host, s, op)
            && timeline.history == old(timeline.history) + [timeline.At()]
            && Unrecorded(timeline) == old(Unrecorded(timeline))
            && (timeline.machine.busError.Some? <==> Hides(cpu, host, s, op))
            && (timeline.machine.busError == None ==> timeline.Valid() && timeline.mode == Mode.Live)
  {
    match op
    case Give(stimulus) => var outcome := timeline.Apply(stimulus);
    case Take(output) => var drained := timeline.DrainOutput(output);
    case Step => var stepped := timeline.TryStep();
  }

  lemma OneMore(cpu: Cpu, host: Host, s: Session, ops: seq<Operation>, k: nat)
    requires k < |ops|
    ensures Run(cpu, host, s, ops[..k + 1]) == Next(cpu, host, Run(cpu, host, s, ops[..k]), ops[k])
    ensures Trail(cpu, host, s, ops[..k + 1])
         == Trail(cpu, host, s, ops[..k]) + [Run(cpu, host, s, ops[..k + 1]).at]
    ensures Hides(cpu, host, Run(cpu, host, s, ops[..k]), ops[k]) ==> !Clean(cpu, host, s, ops)
    ensures Clean(cpu, host, s, ops[..k]) && !Hides(cpu, host, Run(cpu, host, s, ops[..k]), ops[k]) ==>
              Clean(cpu, host, s, ops[..k + 1])
  {
    hide Next, Hides;
    assert ops[..k + 1][..k] == ops[..k];
    assert forall i :: 0 <= i < k ==> ops[..k + 1][..i] == ops[..k][..i];
  }

  /** Carries out `operations` while recording, up to the first that hides a bus failure; `done` counts
      them and `clean` says that there was none. Entry by entry the run is what the CPU and the host make
      of the operations. */
  method Record(timeline: Timeline, operations: seq<Operation>) returns (done: nat, clean: bool)
    requires timeline.Valid() && timeline.mode == Mode.Live
    modifies timeline, timeline.machine, timeline.bus
    ensures var (cpu, host, s) := (timeline.cpu, timeline.bus.host, old(SessionOf(timeline)));
            && done <= |operations|
            && Reached(timeline, s, old(timeline.history), old(Unrecorded(timeline)), operations[..done])
            && (clean <==> Clean(cpu, host, s, operations))
            && (clean ==> done == |operations| && timeline.Valid() && timeline.mode == Mode.Live)
            && (!clean ==>
                  && 0 < done && Clean(cpu, host, s, operations[..done - 1])
                  && Hides(cpu, host, Run(cpu, host, s, operations[..done - 1]), operations[done - 1]))
  {
    hide Timeline.Valid, Next, Hides;
    ghost var (cpu, host, s) := (timeline.cpu, timeline.bus.host, SessionOf(timeline));
    done := 0;
    while done < |operations|
      invariant done <= |operations| && timeline.Valid() && timeline.mode == Mode.Live
      invariant Reached(timeline, s, old(timeline.history), old(Unrecorded(timeline)), operations[..done])
      invariant Clean(cpu, host, s, operations[..done])
    {
      OneMore(cpu, host, s, operations, done);
      CarryOut(timeline, operations[done]);
      done := done + 1;
      if timeline.machine.busError.Some? {
        return done, false;
      }
    }
    assert operations[..done] == operations;
    clean := true;
  }

  /** Returns to entry `i` of the run, whose position is `target`. */
  method ReturnTo(timeline: Timeline, target: Position, ghost i: nat)
    requires timeline.Valid() && timeline.mode != Setup
    requires i < |timeline.history| && timeline.history[i].pos == target
    modifies timeline, timeline.machine, timeline.bus
    ensures timeline.Valid() && timeline.SameRun() && timeline.mode == Playback
    ensures timeline.At() == timeline.history[i] && timeline.bus.cursor == target.busRecords
  {
    ChainIndex(timeline.cpu, timeline.J(), timeline.history, i);
    var sought, executed := timeline.Seek(target);
    assert sought.Success?;
  }

  /** Whatever is recorded before and after it, a position can be returned to: machine, position and bus
      cursor are what the operations before it made of them, the whole run is still there, and the host
      was called for the recorded accesses only. */
  method RecordThenReturn(timeline: Timeline, before: seq<Operation>, after: seq<Operation>)
    returns (returned: bool)
    requires timeline.Valid() && timeline.mode == Mode.Live
    modifies timeline, timeline.machine, timeline.bus
    ensures var (cpu, host, s) := (timeline.cpu, timeline.bus.host, old(SessionOf(timeline)));
            var (there, end) := (Run(cpu, host, s, before), Run(cpu, host, s, before + after));
            && (returned <==> Clean(cpu, host, s, before + after))
            && (returned ==>
                  && timeline.Valid() && timeline.mode == Playback
                  && timeline.At() == there.at && timeline.bus.cursor == there.at.pos.busRecords
                  && timeline.J() == end.journal && timeline.bus.inner == end.inner
                  && timeline.history == old(timeline.history) + Trail(cpu, host, s, before + after)
                  && Unrecorded(timeline) == old(Unrecorded(timeline)))
  {
    hide Timeline.Valid, Run, Trail, Clean;
    ghost var (cpu, host, s) := (timeline.cpu, timeline.bus.host, SessionOf(timeline));
    CleanAppends(cpu, host, s, before, after);
    RunAppends(cpu, host, s, before, after);
    var done;
    done, returned := Record(timeline, before);
    assert before[..|before|] == before && after[..|after|] == after;
    if !returned {
      return;
    }
    var target := timeline.position;
    ghost var h := timeline.history;
    EndsHere(timeline);
    done, returned := Record(timeline, after);
    if !returned {
      return;
    }
    assert timeline.history[|h| - 1] == h[|h| - 1];
    ReturnTo(timeline, target, |h| - 1);
  }

  /** While recording, the timeline stands at the last entry of its run. */
  lemma EndsHere(timeline: Timeline)
    requires timeline.Valid() && timeline.mode == Mode.Live
    ensures 0 < |timeline.history| && timeline.history[|timeline.history| - 1] == timeline.At()
  {
  }
}
