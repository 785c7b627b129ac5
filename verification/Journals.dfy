/**
 Positions, journals and what it means for a journal to describe a run (the data of lib.rs and the
 replay rules of timeline.rs, as functions of the journal).
 */
module Journals {
  import opened Basics
  import opened Machine
  import opened Transcript

  datatype Position = Position(attemptedSteps: nat, cycle: nat, actions: nat, busRecords: nat)

  datatype Action =
    | Stimulate(stimulus: Stimulus, outcome: StimulusOutcome)
    | Drain(output: Output, drained: Drained)

  datatype ActionRecord = ActionRecord(attemptedStep: nat, action: Action)

  datatype AttemptOutcome = Completed(cycles: nat) | HostFailure(busRecord: nat)

  datatype AttemptRecord = AttemptRecord(outcome: AttemptOutcome, end: Position)

  datatype Journal = Journal(records: seq<BusRecord>, actions: seq<ActionRecord>,
                             attempts: seq<AttemptRecord>)

  /** A position together with the machine state the run had there. */
  datatype Snap = Snap(pos: Position, state: MachineState)

  // ------------------------------------------------------------------------- replaying one action

  /** Replay one action; `None` is a divergence. `lenient` is the source's
      `ignore_event_drain_mismatch`. */
  function Perform(cpu: Cpu, st: MachineState, action: Action, lenient: bool): Option<MachineState> {
    match action
    case Stimulate(stimulus, outcome) =>
      var (core, actual) := cpu.stimulate(st.core, stimulus);
      if actual == outcome then Some(st.(core := core)) else None
    case Drain(output, drained) =>
      if output == Events then
        if EventsOut(st.debug.events) == drained || lenient
        then Some(st.(debug := st.debug.Drained())) else None
      else
        var (core, actual) := cpu.drain(st.core, output);
        if actual == drained then Some(st.(core := core)) else None
  }

  /** `replay_actions_until`. */
  function PerformUntil(cpu: Cpu, j: Journal, lenient: bool, a: Snap, limit: nat): (r: Option<Snap>)
    ensures r.Some? ==> r.value.pos == a.pos.(actions := Max(a.pos.actions, limit))
    decreases limit - a.pos.actions
  {
    if limit > |j.actions| then None
    else if a.pos.actions >= limit then Some(a)
    else
      var record := j.actions[a.pos.actions];
      if record.attemptedStep != a.pos.attemptedSteps then None
      else
        match Perform(cpu, a.state, record.action, lenient)
        case None => None
        case Some(state) =>
          PerformUntil(cpu, j, lenient, Snap(a.pos.(actions := a.pos.actions + 1), state), limit)
  }

  /** The end of the run of actions recorded at this step boundary. */
  function BoundaryLimit(actions: seq<ActionRecord>, from: nat, step: nat): (limit: nat)
    ensures from <= limit && (from <= |actions| ==> limit <= |actions|)
    ensures forall i :: from <= i < limit && i < |actions| ==> actions[i].attemptedStep == step
    ensures limit < |actions| ==> actions[limit].attemptedStep != step
    decreases |actions| - from
  {
    if from < |actions| && actions[from].attemptedStep == step
    then BoundaryLimit(actions, from + 1, step) else from
  }

  // ------------------------------------------------------------------------ replaying one attempt

  /** The comparison of a step's result with its log entry. */
  predicate Matches(outcome: AttemptOutcome, result: Result<nat, BusError>) {
    match outcome
    case Completed(cycles) => result == Success(cycles)
    case HostFailure(record) => result == Failure(RecordedHostFailure(record))
  }

  /** The same, of a step that hid no bus failure. */
  predicate Agrees(outcome: AttemptOutcome, ret: Return) {
    !ret.Hidden? && Matches(outcome, ResultOf(ret))
  }

  function PlayStep(cpu: Cpu, j: Journal, a: Snap): PlayRun {
    RunPlay(cpu.step(a.state.core), j.records, a.pos.busRecords, None)
  }

  /** Where a replayed step leaves the machine. */
  function AfterStep(cpu: Cpu, a: Snap, run: PlayRun): Snap {
    Snap(Position(a.pos.attemptedSteps + 1, run.core.cycleCount, a.pos.actions, run.cursor),
         MachineState(run.core, ObserveAll(a.state.debug, run.notes)))
  }

  /** Replay the next attempted step; `None` is a divergence from the journal. */
  function Attempt(cpu: Cpu, j: Journal, a: Snap): (r: Option<Snap>)
    ensures r.Some? ==> r.value.pos.attemptedSteps == a.pos.attemptedSteps + 1
  {
    if a.pos.attemptedSteps >= |j.attempts| then None
    else
      var expected := j.attempts[a.pos.attemptedSteps];
      var run := PlayStep(cpu, j, a);
      var b := AfterStep(cpu, a, run);
      if Agrees(expected.outcome, run.ret) && expected.end == b.pos then Some(b) else None
  }

  /** `replay_next_attempt`: the actions at this boundary, then the step. */
  function NextAttempt(cpu: Cpu, j: Journal, lenient: bool, a: Snap): (r: Option<Snap>)
    ensures r.Some? ==> r.value.pos.attemptedSteps == a.pos.attemptedSteps + 1
  {
    if a.pos.attemptedSteps >= |j.attempts| then None
    else
      match PerformUntil(cpu, j, lenient, a,
                         BoundaryLimit(j.actions, a.pos.actions, a.pos.attemptedSteps))
      case None => None
      case Some(b) => Attempt(cpu, j, b)
  }

  /** The replay loop of `seek_internal`. */
  function ReplayTo(cpu: Cpu, j: Journal, a: Snap, target: Position): (r: Option<Snap>)
    ensures r.Some? ==> r.value.pos == target
    decreases target.attemptedSteps - a.pos.attemptedSteps
  {
    if a.pos.attemptedSteps < target.attemptedSteps then
      match NextAttempt(cpu, j, false, a)
      case None => None
      case Some(b) => ReplayTo(cpu, j, b, target)
    else
      var b := PerformUntil(cpu, j, false, a, target.actions);
      if b.Some? && b.value.pos == target then b else None
  }

  // ------------------------------------------------------------- replaying with an error pending

  // What the replay really does: a step may leave a bus error pending, and the comparison with the
  // log does not notice. The functions above are the replay in which that never happens.

  /** A place in a replay, with the bus error the last step left pending. */
  datatype Place = Place(at: Snap, pending: Option<BusError>)

  /** The step of `replay_next_attempt` and the comparison with its record. */
  function Redo(cpu: Cpu, j: Journal, p: Place): (r: Option<Place>)
    ensures r.Some? ==> r.value.at.pos.attemptedSteps == p.at.pos.attemptedSteps + 1
  {
    if p.at.pos.attemptedSteps >= |j.attempts| then None
    else
      var expected := j.attempts[p.at.pos.attemptedSteps];
      var run := RunPlay(cpu.step(p.at.state.core), j.records, p.at.pos.busRecords, p.pending);
      var b := AfterStep(cpu, p.at, run);
      if Matches(expected.outcome, ResultOf(run.ret)) && expected.end == b.pos
      then Some(Place(b, LeftPending(run.ret))) else None
  }

  /** `replay_next_attempt`. */
  function RedoNext(cpu: Cpu, j: Journal, lenient: bool, p: Place): (r: Option<Place>)
    ensures r.Some? ==> r.value.at.pos.attemptedSteps == p.at.pos.attemptedSteps + 1
  {
    if p.at.pos.attemptedSteps >= |j.attempts| then None
    else
      match PerformUntil(cpu, j, lenient, p.at,
                         BoundaryLimit(j.actions, p.at.pos.actions, p.at.pos.attemptedSteps))
      case None => None
      case Some(b) => Redo(cpu, j, Place(b, p.pending))
  }

  /** The replay loop of `seek_internal`. */
  function RedoTo(cpu: Cpu, j: Journal, p: Place, target: Position): (r: Option<Place>)
    ensures r.Some? ==> r.value.at.pos == target
    decreases target.attemptedSteps - p.at.pos.attemptedSteps
  {
    if p.at.pos.attemptedSteps < target.attemptedSteps then
      match RedoNext(cpu, j, false, p)
      case None => None
      case Some(q) => RedoTo(cpu, j, q, target)
    else
      match PerformUntil(cpu, j, false, p.at, target.actions)
      case None => None
      case Some(b) => if b.pos == target then Some(Place(b, p.pending)) else None
  }

  /** The replay from `a` comes to an attempt that matches its log entry but leaves a bus error pending. */
  predicate HidesFrom(cpu: Cpu, j: Journal, a: Snap)
    decreases |j.attempts| - a.pos.attemptedSteps
  {
    && a.pos.attemptedSteps < |j.attempts|
    && match RedoNext(cpu, j, false, Place(a, None))
       case None => false
       case Some(b) => b.pending.Some? || HidesFrom(cpu, j, b.at)
  }

  /** Without a pending error the replay is the one that hides nothing, up to the first attempt that hides
      a failure. */
  lemma RedoNextIs(cpu: Cpu, j: Journal, lenient: bool, a: Snap)
    ensures forall b :: NextAttempt(cpu, j, lenient, a) == Some(b)
                   <==> RedoNext(cpu, j, lenient, Place(a, None)) == Some(Place(b, None))
  {
  }

  /** A replay that arrives without hiding anything arrives. */
  lemma {:induction false} RedoToIs(cpu: Cpu, j: Journal, a: Snap, target: Position)
    requires ReplayTo(cpu, j, a, target).Some?
    ensures RedoTo(cpu, j, Place(a, None), target)
         == Some(Place(ReplayTo(cpu, j, a, target).value, None))
    decreases target.attemptedSteps - a.pos.attemptedSteps
  {
    if a.pos.attemptedSteps < target.attemptedSteps {
      RedoNextIs(cpu, j, false, a);
      RedoToIs(cpu, j, NextAttempt(cpu, j, false, a).value, target);
    }
  }

  // ----------------------------------------------------------------- the positions of a history

  function Index(pos: Position): nat {
    pos.attemptedSteps + pos.actions
  }

  /** The position right after attempt `k`, as the journal records it. */
  function EndOf(j: Journal, start: Position, k: nat): Position
    requires k <= |j.attempts|
  {
    if k == 0 then start else j.attempts[k - 1].end
  }

  /** An action is recorded at exactly this point. */
  predicate Due(j: Journal, pos: Position) {
    pos.actions < |j.actions| && j.actions[pos.actions].attemptedStep == pos.attemptedSteps
  }

  /** From one position to the next there is one action or one attempt more, as the journal says. */
  predicate Paced(j: Journal, ps: seq<Position>, i: nat)
    requires i + 1 < |ps|
  {
    var (a, b) := (ps[i], ps[i + 1]);
    if Due(j, a) then b == a.(actions := a.actions + 1)
    else
      && a.attemptedSteps < |j.attempts| && b == j.attempts[a.attemptedSteps].end
      && b.attemptedSteps == a.attemptedSteps + 1 && b.actions == a.actions
  }

  ghost predicate Walk(j: Journal, ps: seq<Position>) {
    && 0 < |ps| && ps[0].attemptedSteps == ps[0].actions == ps[0].busRecords == 0
    && forall i :: 0 <= i < |ps| - 1 ==> Paced(j, ps, i)
  }

  /** A walk through the whole journal. */
  ghost predicate WholeWalk(j: Journal, ps: seq<Position>) {
    Walk(j, ps) && |ps| == |j.actions| + |j.attempts| + 1
  }

  lemma {:induction false} WalkIndex(j: Journal, ps: seq<Position>, i: nat)
    requires Walk(j, ps) && i < |ps|
    ensures Index(ps[i]) == i
    ensures ps[i].attemptedSteps <= |j.attempts| && ps[i].actions <= |j.actions|
    decreases i
  {
    if i > 0 {
      WalkIndex(j, ps, i - 1);
      assert Paced(j, ps, i - 1);
    }
  }

  lemma {:induction false} WalkGrows(j: Journal, ps: seq<Position>, i: nat, k: nat)
    requires Walk(j, ps) && i <= k < |ps|
    ensures ps[i].attemptedSteps <= ps[k].attemptedSteps && ps[i].actions <= ps[k].actions
    decreases k
  {
    if i < k {
      WalkGrows(j, ps, i, k - 1);
      assert Paced(j, ps, k - 1);
    }
  }

  /** Where action `x` was taken. */
  lemma {:induction false} TakenAt(j: Journal, ps: seq<Position>, x: nat, i: nat) returns (k: nat)
    requires Walk(j, ps) && i < |ps| && x < ps[i].actions
    ensures k < i && ps[k].actions == x && Due(j, ps[k]) && ps[k + 1].actions == x + 1
    decreases i
  {
    assert Paced(j, ps, i - 1);
    if x < ps[i - 1].actions {
      k := TakenAt(j, ps, x, i - 1);
    } else {
      k := i - 1;
    }
  }

  /** The actions before a position belong to its step or earlier ones, those after it to its step or later
      ones. */
  lemma WalkSplit(j: Journal, ps: seq<Position>, i: nat, x: nat)
    requires WholeWalk(j, ps) && i < |ps| && x < |j.actions|
    ensures x < ps[i].actions ==> j.actions[x].attemptedStep <= ps[i].attemptedSteps
    ensures ps[i].actions <= x ==> ps[i].attemptedSteps <= j.actions[x].attemptedStep
  {
    WalkIndex(j, ps, |ps| - 1);
    var k := TakenAt(j, ps, x, |ps| - 1);
    if k < i {
      WalkGrows(j, ps, k + 1, i);
    } else {
      WalkGrows(j, ps, i, k);
    }
    assert Paced(j, ps, k);
  }

  /** The walk was at `EndOf(k)`, and until attempt `k + 1` only its action count grew. */
  lemma {:induction false} WalkBoundary(j: Journal, ps: seq<Position>, i: nat)
    requires Walk(j, ps) && i < |ps|
    ensures ps[i].attemptedSteps <= |j.attempts|
    ensures var end := EndOf(j, ps[0], ps[i].attemptedSteps);
            && end.attemptedSteps == ps[i].attemptedSteps
            && end.cycle == ps[i].cycle && end.busRecords == ps[i].busRecords
            && end.actions <= ps[i].actions && Index(end) <= i && ps[Index(end)] == end
    decreases i
  {
    if i > 0 {
      WalkBoundary(j, ps, i - 1);
      assert Paced(j, ps, i - 1);
      WalkIndex(j, ps, i);
    }
  }

  /** `validate_position`. */
  predicate ValidPosition(j: Journal, start: Position, target: Position) {
    && target.attemptedSteps <= |j.attempts|
    && target.actions <= |j.actions|
    && target.cycle == EndOf(j, start, target.attemptedSteps).cycle
    && target.busRecords == EndOf(j, start, target.attemptedSteps).busRecords
    && (forall i :: 0 <= i < target.actions ==> j.actions[i].attemptedStep <= target.attemptedSteps)
    && (target.actions < |j.actions| ==>
          target.attemptedSteps <= j.actions[target.actions].attemptedStep)
  }

  /** The positions of a walk through the whole journal are the valid ones. */
  lemma ValidOnWalk(j: Journal, ps: seq<Position>, target: Position)
    requires WholeWalk(j, ps)
    ensures ValidPosition(j, ps[0], target) <==> Index(target) < |ps| && ps[Index(target)] == target
  {
    var i := Index(target);
    if ValidPosition(j, ps[0], target) {
      ValidIsThere(j, ps, target);
    }
    if i < |ps| && ps[i] == target {
      WalkIndex(j, ps, i);
      WalkBoundary(j, ps, i);
      forall x | 0 <= x < |j.actions|
        ensures x < target.actions ==> j.actions[x].attemptedStep <= target.attemptedSteps
        ensures target.actions <= x ==> target.attemptedSteps <= j.actions[x].attemptedStep
      {
        WalkSplit(j, ps, i, x);
      }
    }
  }

  lemma ValidIsThere(j: Journal, ps: seq<Position>, target: Position)
    requires WholeWalk(j, ps) && ValidPosition(j, ps[0], target)
    ensures Index(target) < |ps| && ps[Index(target)] == target
  {
    var i := Index(target);
    var at := ps[i];
    WalkIndex(j, ps, i);
    WalkBoundary(j, ps, i);
    if at.attemptedSteps < target.attemptedSteps {
      WalkSplit(j, ps, i, target.actions);
      assert false;
    } else if target.attemptedSteps < at.attemptedSteps {
      WalkSplit(j, ps, i, at.actions);
      assert false;
    }
  }

  // ---------------------------------------------------------------------------- a recorded history

  /** The next entry of the run the journal describes. */
  function Advance(cpu: Cpu, j: Journal, a: Snap): Option<Snap> {
    if Due(j, a.pos) then PerformUntil(cpu, j, false, a, a.pos.actions + 1)
    else Attempt(cpu, j, a)
  }

  ghost predicate Chain(cpu: Cpu, j: Journal, h: seq<Snap>) {
    && 0 < |h|
    && h[0].pos.attemptedSteps == h[0].pos.actions == h[0].pos.busRecords == 0
    && cpu.Sound(h[0].state)
    && h[0].state.core.cycleCount == h[0].pos.cycle
    && forall i :: 0 <= i < |h| - 1 ==> Linked(cpu, j, h, i)
  }

  ghost predicate Linked(cpu: Cpu, j: Journal, h: seq<Snap>, i: nat)
    requires i + 1 < |h|
  {
    Advance(cpu, j, h[i]) == Some(h[i + 1])
  }

  /** `h` is the run the journal describes, from its start to its end, one entry for the start and one
      after every action and every attempt, and it consumes every bus record. */
  ghost predicate Recorded(cpu: Cpu, j: Journal, h: seq<Snap>) {
    && Chain(cpu, j, h)
    && |h| == |j.actions| + |j.attempts| + 1
    && h[|h| - 1].pos.busRecords == |j.records|
  }

  /** One advance: exactly one action or one attempt more. */
  lemma AdvanceGrows(cpu: Cpu, j: Journal, a: Snap)
    requires Advance(cpu, j, a).Some?
    ensures var b := Advance(cpu, j, a).value;
            if Due(j, a.pos) then
              && b.pos == a.pos.(actions := a.pos.actions + 1)
              && Perform(cpu, a.state, j.actions[a.pos.actions].action, false) == Some(b.state)
            else
              && Attempt(cpu, j, a) == Some(b)
              && a.pos.attemptedSteps < |j.attempts|
              && b.pos == j.attempts[a.pos.attemptedSteps].end
              && b.pos.attemptedSteps == a.pos.attemptedSteps + 1
              && b.pos.actions == a.pos.actions
  {
    if Due(j, a.pos) {
      var state := Perform(cpu, a.state, j.actions[a.pos.actions].action, false);
      assert PerformUntil(cpu, j, false, a, a.pos.actions + 1)
          == PerformUntil(cpu, j, false, Snap(a.pos.(actions := a.pos.actions + 1), state.value),
                          a.pos.actions + 1);
    }
  }

  /** The same between neighbours of a chain. */
  lemma EntryGrows(cpu: Cpu, j: Journal, h: seq<Snap>, i: nat)
    requires Chain(cpu, j, h) && i + 1 < |h|
    ensures var (a, b) := (h[i], h[i + 1]);
            if Due(j, a.pos) then
              && b.pos == a.pos.(actions := a.pos.actions + 1)
              && Perform(cpu, a.state, j.actions[a.pos.actions].action, false) == Some(b.state)
            else
              && Attempt(cpu, j, a) == Some(b)
              && a.pos.attemptedSteps < |j.attempts|
              && b.pos == j.attempts[a.pos.attemptedSteps].end
              && b.pos.attemptedSteps == a.pos.attemptedSteps + 1
              && b.pos.actions == a.pos.actions
  {
    assert Linked(cpu, j, h, i);
    AdvanceGrows(cpu, j, h[i]);
  }

  function Positions(h: seq<Snap>): (ps: seq<Position>)
    ensures |ps| == |h|
  {
    seq(|h|, i requires 0 <= i < |h| => h[i].pos)
  }

  lemma ChainWalks(cpu: Cpu, j: Journal, h: seq<Snap>)
    requires Chain(cpu, j, h)
    ensures Walk(j, Positions(h))
  {
    var ps := Positions(h);
    forall i | 0 <= i < |ps| - 1
      ensures Paced(j, ps, i)
    {
      EntryGrows(cpu, j, h, i);
    }
  }

  /** An entry's index is the number of attempts and actions before it, and both fit the journal. */
  lemma ChainIndex(cpu: Cpu, j: Journal, h: seq<Snap>, i: nat)
    requires Chain(cpu, j, h) && i < |h|
    ensures Index(h[i].pos) == i
    ensures h[i].pos.attemptedSteps <= |j.attempts| && h[i].pos.actions <= |j.actions|
  {
    ChainWalks(cpu, j, h);
    WalkIndex(j, Positions(h), i);
  }

  lemma ChainGrows(cpu: Cpu, j: Journal, h: seq<Snap>, i: nat, k: nat)
    requires Chain(cpu, j, h) && i <= k < |h|
    ensures h[i].pos.attemptedSteps <= h[k].pos.attemptedSteps
    ensures h[i].pos.actions <= h[k].pos.actions
  {
    ChainWalks(cpu, j, h);
    WalkGrows(j, Positions(h), i, k);
  }

  /** Every state of a run satisfies the loader's checks, the clock never runs back and the cursor
      stays inside the transcript. */
  lemma {:induction false} ChainSound(cpu: Cpu, j: Journal, h: seq<Snap>, i: nat)
    requires cpu.Lawful() && Chain(cpu, j, h) && i < |h|
    ensures cpu.Sound(h[i].state) && h[i].pos.busRecords <= |j.records|
    ensures h[i].pos.cycle == h[i].state.core.cycleCount
    ensures 0 < i ==> h[i - 1].pos.cycle <= h[i].pos.cycle
    ensures 0 < i ==> h[i - 1].pos.busRecords <= h[i].pos.busRecords
    decreases i
  {
    if i > 0 {
      ChainSound(cpu, j, h, i - 1);
      var a := h[i - 1];
      EntryGrows(cpu, j, h, i - 1);
      if Due(j, a.pos) {
        match j.actions[a.pos.actions].action
        case Stimulate(stimulus, _) => assert cpu.StimulusKeeps(a.state.core, stimulus);
        case Drain(output, _) => assert cpu.DrainKeeps(a.state.core, output);
      } else {
        var run := PlayStep(cpu, j, a);
        assert cpu.StepsGrounded(a.state.core);
        PlayStaysGrounded(cpu, cpu.step(a.state.core), a.state.core.cycleCount, j.records,
                          a.pos.busRecords, None);
        PlaybackIgnoresSuffix(cpu.step(a.state.core), j.records, [], a.pos.busRecords, None);
        ObserveAllSound(a.state.debug, run.notes);
      }
    }
  }

  /** The actions before an entry belong to its step or earlier ones, those after it to its step or
      later ones. */
  lemma ActionsSplit(cpu: Cpu, j: Journal, h: seq<Snap>, i: nat, x: nat)
    requires Chain(cpu, j, h) && |h| == |j.actions| + |j.attempts| + 1
    requires i < |h| && x < |j.actions|
    ensures x < h[i].pos.actions ==> j.actions[x].attemptedStep <= h[i].pos.attemptedSteps
    ensures h[i].pos.actions <= x ==> h[i].pos.attemptedSteps <= j.actions[x].attemptedStep
  {
    ChainWalks(cpu, j, h);
    WalkSplit(j, Positions(h), i, x);
  }

  /** The run was at `EndOf(k)`, and until attempt `k + 1` only its action count grew. */
  lemma SameBoundary(cpu: Cpu, j: Journal, h: seq<Snap>, i: nat)
    requires Chain(cpu, j, h) && i < |h|
    ensures h[i].pos.attemptedSteps <= |j.attempts|
    ensures var end := EndOf(j, h[0].pos, h[i].pos.attemptedSteps);
            && end.attemptedSteps == h[i].pos.attemptedSteps
            && end.cycle == h[i].pos.cycle && end.busRecords == h[i].pos.busRecords
            && end.actions <= h[i].pos.actions
            && Index(end) <= i && h[Index(end)].pos == end
  {
    ChainWalks(cpu, j, h);
    WalkBoundary(j, Positions(h), i);
  }

  /** A run that got past attempt `k` was at `EndOf(k)`. */
  lemma {:induction false} ChainReaches(cpu: Cpu, j: Journal, h: seq<Snap>, k: nat, i: nat)
    requires Chain(cpu, j, h) && i < |h| && k <= h[i].pos.attemptedSteps
    ensures k <= |j.attempts|
    ensures var end := EndOf(j, h[0].pos, k);
            end.attemptedSteps == k && Index(end) <= i && h[Index(end)].pos == end
    decreases i
  {
    SameBoundary(cpu, j, h, i);
    if k < h[i].pos.attemptedSteps {
      EntryGrows(cpu, j, h, i - 1);
      ChainReaches(cpu, j, h, k, i - 1);
    }
  }

  /** The run was at this position. */
  predicate WasAt(h: seq<Snap>, pos: Position) {
    Index(pos) < |h| && h[Index(pos)].pos == pos
  }

  /** The run was there at one entry only. */
  lemma WasAtOnce(cpu: Cpu, j: Journal, h: seq<Snap>, pos: Position)
    requires Chain(cpu, j, h)
    ensures WasAt(h, pos) <==> exists i :: 0 <= i < |h| && h[i].pos == pos
    ensures forall i :: 0 <= i < |h| && h[i].pos == pos ==> i == Index(pos)
  {
    forall i | 0 <= i < |h| && h[i].pos == pos
      ensures i == Index(pos)
    {
      ChainIndex(cpu, j, h, i);
    }
  }

  /** A position is valid exactly when the run was there. */
  lemma ValidPositionIff(cpu: Cpu, j: Journal, h: seq<Snap>, target: Position)
    requires Recorded(cpu, j, h)
    ensures ValidPosition(j, h[0].pos, target) <==> WasAt(h, target)
  {
    ChainWalks(cpu, j, h);
    ValidOnWalk(j, Positions(h), target);
  }

  // --------------------------------------------------------------------- replay follows the run

  /** Replaying actions from an entry of the run follows the run. */
  lemma {:induction false} ActionsFollow(cpu: Cpu, j: Journal, h: seq<Snap>, i: nat, limit: nat)
    requires Recorded(cpu, j, h) && i < |h|
    requires h[i].pos.actions <= limit <= |j.actions|
    requires forall x :: h[i].pos.actions <= x < limit ==>
               j.actions[x].attemptedStep == h[i].pos.attemptedSteps
    ensures var k := i + (limit - h[i].pos.actions);
            && k < |h| && h[k].pos == h[i].pos.(actions := limit)
            && PerformUntil(cpu, j, false, h[i], limit) == Some(h[k])
    decreases limit - h[i].pos.actions
  {
    ChainIndex(cpu, j, h, i);
    if h[i].pos.actions < limit {
      assert Due(j, h[i].pos);
      EntryGrows(cpu, j, h, i);
      ActionsFollow(cpu, j, h, i + 1, limit);
    }
  }

  /** Replaying the next attempt from an entry of the run ends right after that attempt of the run. */
  lemma AttemptFollows(cpu: Cpu, j: Journal, h: seq<Snap>, i: nat) returns (before: nat)
    requires Recorded(cpu, j, h) && i < |h| && h[i].pos.attemptedSteps < |j.attempts|
    ensures var end := j.attempts[h[i].pos.attemptedSteps].end;
            && i <= before && Index(end) == before + 1 < |h| && h[before + 1].pos == end
            && end.attemptedSteps == h[i].pos.attemptedSteps + 1
            && before == i + (end.actions - h[i].pos.actions)
            && h[before].pos == h[i].pos.(actions := end.actions)
            && BoundaryLimit(j.actions, h[i].pos.actions, h[i].pos.attemptedSteps) == end.actions
            && PerformUntil(cpu, j, false, h[i], end.actions) == Some(h[before])
            && Attempt(cpu, j, h[before]) == Some(h[before + 1])
            && NextAttempt(cpu, j, false, h[i]) == Some(h[before + 1])
  {
    ChainIndex(cpu, j, h, i);
    var limit := BoundaryLimit(j.actions, h[i].pos.actions, h[i].pos.attemptedSteps);
    ActionsFollow(cpu, j, h, i, limit);
    before := i + (limit - h[i].pos.actions);
    assert !Due(j, h[before].pos);
    ChainIndex(cpu, j, h, before);
    EntryGrows(cpu, j, h, before);
    ChainIndex(cpu, j, h, before + 1);
  }

  /** Replay from one entry of the run to a later position of the run arrives there. */
  lemma {:induction false} ReplayFollows(cpu: Cpu, j: Journal, h: seq<Snap>, i: nat, target: Position)
    requires Recorded(cpu, j, h) && i < |h| && ValidPosition(j, h[0].pos, target)
    requires h[i].pos.attemptedSteps <= target.attemptedSteps && h[i].pos.actions <= target.actions
    ensures Index(target) < |h| && h[Index(target)].pos == target
    ensures ReplayTo(cpu, j, h[i], target) == Some(h[Index(target)])
    decreases target.attemptedSteps - h[i].pos.attemptedSteps
  {
    var (ps, t) := (Positions(h), Index(target));
    ChainWalks(cpu, j, h);
    ValidOnWalk(j, ps, target);
    WalkIndex(j, ps, i);
    if h[i].pos.attemptedSteps < target.attemptedSteps {
      var before := AttemptFollows(cpu, j, h, i);
      if t < before + 1 {
        WalkGrows(j, ps, t, before);
      } else {
        WalkGrows(j, ps, before + 1, t);
      }
      ReplayFollows(cpu, j, h, before + 1, target);
    } else {
      forall x | h[i].pos.actions <= x < target.actions
        ensures j.actions[x].attemptedStep == h[i].pos.attemptedSteps
      {
        WalkSplit(j, ps, i, x);
      }
      ActionsFollow(cpu, j, h, i, target.actions);
    }
  }

  // ------------------------------------------------------------------------- recording goes on

  predicate Prefix<T(==)>(a: seq<T>, b: seq<T>) {
    |a| <= |b| && b[..|a|] == a
  }

  /** A chain keeps describing its run when the journal is extended at the end: with records, with
      attempts, and with actions that belong after the chain's last entry. */
  lemma ChainExtends(cpu: Cpu, j: Journal, j': Journal, h: seq<Snap>, i: nat)
    requires cpu.Lawful() && Chain(cpu, j, h) && i + 1 < |h|
    requires Prefix(j.records, j'.records) && Prefix(j.actions, j'.actions)
    requires Prefix(j.attempts, j'.attempts)
    requires |j.actions| < |j'.actions| ==> |j.attempts| <= j'.actions[|j.actions|].attemptedStep
    ensures Linked(cpu, j', h, i)
  {
    var (a, b) := (h[i], h[i + 1]);
    EntryGrows(cpu, j, h, i);
    ChainSound(cpu, j, h, i);
    ChainIndex(cpu, j, h, i);
    if Due(j, a.pos) {
      assert Due(j', a.pos) && j'.actions[a.pos.actions] == j.actions[a.pos.actions];
      var next := Snap(b.pos, b.state);
      assert PerformUntil(cpu, j', false, a, a.pos.actions + 1)
          == PerformUntil(cpu, j', false, next, a.pos.actions + 1);
    } else {
      assert !Due(j', a.pos);
      assert j'.attempts[a.pos.attemptedSteps] == j.attempts[a.pos.attemptedSteps];
      var more := j'.records[|j.records|..];
      assert j'.records == j.records + more;
      PlaybackIgnoresSuffix(cpu.step(a.state.core), j.records, more, a.pos.busRecords, None);
    }
  }

  /** Applying a stimulus or draining an output live, and logging it, extends the recorded run. */
  lemma RecordAction(cpu: Cpu, j: Journal, h: seq<Snap>, action: Action)
    requires cpu.Lawful() && Recorded(cpu, j, h)
    requires Perform(cpu, h[|h| - 1].state, action, false).Some?
    ensures var last := h[|h| - 1];
            var record := ActionRecord(last.pos.attemptedSteps, action);
            var state := Perform(cpu, last.state, action, false).value;
            && last.pos.actions == |j.actions|
            && Recorded(cpu, j.(actions := j.actions + [record]),
                        h + [Snap(last.pos.(actions := |j.actions| + 1), state)])
  {
    var last := h[|h| - 1];
    ChainIndex(cpu, j, h, |h| - 1);
    var j' := j.(actions := j.actions + [ActionRecord(last.pos.attemptedSteps, action)]);
    var state := Perform(cpu, last.state, action, false).value;
    var next := Snap(last.pos.(actions := |j.actions| + 1), state);
    var h' := h + [next];
    forall i | 0 <= i < |h'| - 1
      ensures Linked(cpu, j', h', i)
    {
      if i + 1 < |h| {
        ChainExtends(cpu, j, j', h, i);
        assert Linked(cpu, j', h, i);
      } else {
        assert Due(j', last.pos);
        assert PerformUntil(cpu, j', false, last, last.pos.actions + 1)
            == PerformUntil(cpu, j', false, next, last.pos.actions + 1);
      }
    }
  }

  /** The outcome `try_step_live` logs. */
  function OutcomeOf(ret: Return, busRecords: nat): AttemptOutcome {
    match ret
    case Returned(cycles) => Completed(cycles)
    case Threw(_) => HostFailure(if busRecords == 0 then 0 else busRecords - 1)
    case Hidden(cycles, _) => Completed(cycles)
  }

  /** Where a live step leaves the run, and the journal after logging it. */
  function LiveSnap(cpu: Cpu, j: Journal, last: Snap, run: LiveRun): Snap {
    Snap(Position(last.pos.attemptedSteps + 1, run.core.cycleCount, |j.actions|,
                  |j.records| + |run.records|),
         MachineState(run.core, ObserveAll(last.state.debug, run.notes)))
  }

  function LiveJournal(cpu: Cpu, j: Journal, last: Snap, run: LiveRun): Journal {
    var end := LiveSnap(cpu, j, last, run).pos;
    Journal(j.records + run.records, j.actions,
            j.attempts + [AttemptRecord(OutcomeOf(run.ret, end.busRecords), end)])
  }

  /** Attempting a step live and logging it extends the recorded run. */
  lemma RecordAttempt(cpu: Cpu, j: Journal, h: seq<Snap>, host: Host, inner: HostState)
    requires cpu.Lawful() && Recorded(cpu, j, h)
    requires !RunLive(cpu.step(h[|h| - 1].state.core), host, inner, None).ret.Hidden?
    ensures var last := h[|h| - 1];
            var run := RunLive(cpu.step(last.state.core), host, inner, None);
            && last.pos.attemptedSteps == |j.attempts|
            && Recorded(cpu, LiveJournal(cpu, j, last, run), h + [LiveSnap(cpu, j, last, run)])
  {
    var last := h[|h| - 1];
    ChainIndex(cpu, j, h, |h| - 1);
    var step := cpu.step(last.state.core);
    var run := RunLive(step, host, inner, None);
    var (j', next) := (LiveJournal(cpu, j, last, run), LiveSnap(cpu, j, last, run));
    var h' := h + [next];
    forall i | 0 <= i < |h'| - 1
      ensures Linked(cpu, j', h', i)
    {
      if i + 1 < |h| {
        ChainExtends(cpu, j, j', h, i);
        assert Linked(cpu, j', h, i);
      } else {
        PlaybackRepeatsLive(step, host, inner, j.records, []);
        assert j.records + run.records + [] == j'.records;
        FailedCallIsLast(step, host, inner);
        assert Attempt(cpu, j', last) == Some(next);
      }
    }
  }

  // ------------------------------------------------------------ replay with event drains ignored

  /** The same place and core; only what the debug layer holds may differ. */
  predicate Alike(a: Snap, b: Snap) {
    a.pos == b.pos && a.state.core == b.state.core
  }

  /** The debug layer as it was, or with its events drained. */
  predicate Undisturbed(d: Debug, d': Debug) {
    d' == d || d' == d.Drained()
  }

  lemma {:induction false} ActionsFollowAlike(cpu: Cpu, j: Journal, a: Snap, a': Snap, limit: nat)
    requires PerformUntil(cpu, j, false, a, limit).Some? && Alike(a, a')
    ensures var r := PerformUntil(cpu, j, true, a', limit);
            && r.Some? && Alike(PerformUntil(cpu, j, false, a, limit).value, r.value)
            && Undisturbed(a'.state.debug, r.value.state.debug)
    decreases limit - a.pos.actions
  {
    if a.pos.actions < limit {
      var action := j.actions[a.pos.actions].action;
      var pos := a.pos.(actions := a.pos.actions + 1);
      var b := Snap(pos, Perform(cpu, a.state, action, false).value);
      var b' := Snap(pos, Perform(cpu, a'.state, action, true).value);
      ActionsFollowAlike(cpu, j, b, b', limit);
    }
  }

  /** The write probe's replay: from any debug layer the next attempt goes the way the run went, and
      the debug layer sees the notes of that attempt. */
  lemma NextAttemptAlike(cpu: Cpu, j: Journal, h: seq<Snap>, i: nat, a': Snap) returns (before: nat)
    requires Recorded(cpu, j, h) && i < |h| && h[i].pos.attemptedSteps < |j.attempts|
    requires Alike(h[i], a')
    ensures i <= before && before + 1 < |h|
    ensures h[before + 1].pos == j.attempts[h[i].pos.attemptedSteps].end
    ensures h[before + 1].pos.attemptedSteps == h[i].pos.attemptedSteps + 1
    ensures h[before].pos.attemptedSteps == h[i].pos.attemptedSteps && !Due(j, h[before].pos)
    ensures var r := NextAttempt(cpu, j, true, a');
            && r.Some? && Alike(h[before + 1], r.value)
            && exists d :: Undisturbed(a'.state.debug, d)
                    && r.value.state.debug == ObserveAll(d, PlayStep(cpu, j, h[before]).notes)
  {
    before := AttemptFollows(cpu, j, h, i);
    var limit := BoundaryLimit(j.actions, h[i].pos.actions, h[i].pos.attemptedSteps);
    ActionsFollowAlike(cpu, j, h[i], a', limit);
    var b' := PerformUntil(cpu, j, true, a', limit).value;
    assert Attempt(cpu, j, b').Some?;
    assert Undisturbed(a'.state.debug, b'.state.debug);
  }
}
