/**
 Runs in which a step may return normally with a bus error pending: replay and seeking when the error is
 part of the place, and when a checkpoint, which does not hold it, still leads there.
 */
module PendingErrors {
  import opened Basics
  import opened Machine
  import opened Transcript
  import opened ReplayBuses
  import opened Journals
  import opened Checkpoints
  import opened Timelines
  import opened Scenarios
  import opened Stepping
  import opened Recordings

  // ------------------------------------------------------------------------ a history with errors

  /** The next place of the run that the journal describes. */
  function Resume(cpu: Cpu, j: Journal, p: Place): Option<Place> {
    if Due(j, p.at.pos) then
      match PerformUntil(cpu, j, false, p.at, p.at.pos.actions + 1)
      case None => None
      case Some(a) => Some(Place(a, p.pending))
    else Redo(cpu, j, p)
  }

  ghost predicate Resumed(cpu: Cpu, j: Journal, h: seq<Place>, i: nat)
    requires i + 1 < |h|
  {
    Resume(cpu, j, h[i]) == Some(h[i + 1])
  }

  /** In a replay a pending error is the failure of the last record consumed. */
  predicate Told(p: Place) {
    p.pending.Some? ==>
      0 < p.at.pos.busRecords && p.pending.value == RecordedHostFailure(p.at.pos.busRecords - 1)
  }

  /** `h` is the run the journal describes, with one place for the start and one after every action and every
      attempt, and it consumes every bus record. Where nothing is pending this is `Recorded`. */
  ghost predicate Described(cpu: Cpu, j: Journal, h: seq<Place>) {
    && |h| == |j.actions| + |j.attempts| + 1
    && h[0].at.pos.attemptedSteps == h[0].at.pos.actions == h[0].at.pos.busRecords == 0
    && h[|h| - 1].at.pos.busRecords == |j.records|
    && (forall i {:trigger Told(h[i])} :: 0 <= i < |h| ==> Told(h[i]))
    && forall i :: 0 <= i < |h| - 1 ==> Resumed(cpu, j, h, i)
  }

  function Positions(h: seq<Place>): (ps: seq<Position>)
    ensures |ps| == |h|
  {
    seq(|h|, i requires 0 <= i < |h| => h[i].at.pos)
  }

  /** One more place is one action or one attempt more. */
  lemma PlaceGrows(cpu: Cpu, j: Journal, h: seq<Place>, i: nat)
    requires Described(cpu, j, h) && i + 1 < |h|
    ensures Paced(j, Positions(h), i)
    ensures var (a, b) := (h[i], h[i + 1]);
            if Due(j, a.at.pos) then
              && Perform(cpu, a.at.state, j.actions[a.at.pos.actions].action, false) == Some(b.at.state)
              && b.pending == a.pending
            else Redo(cpu, j, a) == Some(b)
  {
    var (a, b) := (h[i], h[i + 1]);
    assert Resumed(cpu, j, h, i);
    if Due(j, a.at.pos) {
      var state := Perform(cpu, a.at.state, j.actions[a.at.pos.actions].action, false);
      assert PerformUntil(cpu, j, false, a.at, a.at.pos.actions + 1)
          == PerformUntil(cpu, j, false, Snap(a.at.pos.(actions := a.at.pos.actions + 1), state.value),
                          a.at.pos.actions + 1);
    }
  }

  lemma PlacesWalk(cpu: Cpu, j: Journal, h: seq<Place>)
    requires Described(cpu, j, h)
    ensures WholeWalk(j, Positions(h))
  {
    forall i | 0 <= i < |h| - 1
      ensures Paced(j, Positions(h), i)
    {
      PlaceGrows(cpu, j, h, i);
    }
  }

  // --------------------------------------------------------------------- replay follows the run

  lemma {:induction false} ActionsGoOn(cpu: Cpu, j: Journal, h: seq<Place>, i: nat, limit: nat)
    requires Described(cpu, j, h) && i < |h|
    requires h[i].at.pos.actions <= limit <= |j.actions|
    requires forall x :: h[i].at.pos.actions <= x < limit ==>
               j.actions[x].attemptedStep == h[i].at.pos.attemptedSteps
    ensures var k := i + (limit - h[i].at.pos.actions);
            && k < |h| && h[k].at.pos == h[i].at.pos.(actions := limit) && h[k].pending == h[i].pending
            && PerformUntil(cpu, j, false, h[i].at, limit) == Some(h[k].at)
    decreases limit - h[i].at.pos.actions
  {
    PlacesWalk(cpu, j, h);
    WalkIndex(j, Positions(h), i);
    if h[i].at.pos.actions < limit {
      PlaceGrows(cpu, j, h, i);
      ActionsGoOn(cpu, j, h, i + 1, limit);
    }
  }

  /** The next attempt of a replay that has the error of the run pending is that of the run. */
  lemma AttemptGoesOn(cpu: Cpu, j: Journal, h: seq<Place>, i: nat) returns (before: nat)
    requires Described(cpu, j, h) && i < |h| && h[i].at.pos.attemptedSteps < |j.attempts|
    ensures i <= before && before + 1 < |h|
    ensures h[before].pending == h[i].pending && !Due(j, h[before].at.pos)
    ensures h[before].at.pos == h[i].at.pos.(actions := h[before].at.pos.actions)
    ensures PerformUntil(cpu, j, false, h[i].at,
                         BoundaryLimit(j.actions, h[i].at.pos.actions, h[i].at.pos.attemptedSteps))
         == Some(h[before].at)
    ensures Redo(cpu, j, h[before]) == Some(h[before + 1])
    ensures RedoNext(cpu, j, false, h[i]) == Some(h[before + 1])
  {
    PlacesWalk(cpu, j, h);
    WalkIndex(j, Positions(h), i);
    var limit := BoundaryLimit(j.actions, h[i].at.pos.actions, h[i].at.pos.attemptedSteps);
    ActionsGoOn(cpu, j, h, i, limit);
    before := i + (limit - h[i].at.pos.actions);
    WalkIndex(j, Positions(h), before);
    PlaceGrows(cpu, j, h, before);
  }

  /** Replay from any place of the run, hidden failures or not, comes to every later position of it. */
  lemma {:induction false} RedoFollows(cpu: Cpu, j: Journal, h: seq<Place>, i: nat, target: Position)
    requires Described(cpu, j, h) && i < |h| && ValidPosition(j, h[0].at.pos, target)
    requires h[i].at.pos.attemptedSteps <= target.attemptedSteps && h[i].at.pos.actions <= target.actions
    ensures Index(target) < |h| && h[Index(target)].at.pos == target
    ensures RedoTo(cpu, j, h[i], target) == Some(h[Index(target)])
    decreases target.attemptedSteps - h[i].at.pos.attemptedSteps
  {
    var (ps, t) := (Positions(h), Index(target));
    PlacesWalk(cpu, j, h);
    ValidOnWalk(j, ps, target);
    WalkIndex(j, ps, i);
    if h[i].at.pos.attemptedSteps < target.attemptedSteps {
      var before := AttemptGoesOn(cpu, j, h, i);
      PlaceGrows(cpu, j, h, before);
      if t < before + 1 {
        WalkGrows(j, ps, t, before);
      } else {
        WalkGrows(j, ps, before + 1, t);
      }
      RedoFollows(cpu, j, h, before + 1, target);
    } else {
      forall x | h[i].at.pos.actions <= x < target.actions
        ensures j.actions[x].attemptedStep == h[i].at.pos.attemptedSteps
      {
        WalkSplit(j, ps, i, x);
      }
      ActionsGoOn(cpu, j, h, i, target.actions);
    }
  }

  // -------------------------------------------------------------------------- recording goes on

  /** A run stays described when the journal is extended at the end. */
  lemma PlaceExtends(cpu: Cpu, j: Journal, j': Journal, h: seq<Place>, i: nat)
    requires Described(cpu, j, h) && i + 1 < |h|
    requires Prefix(j.records, j'.records) && Prefix(j.actions, j'.actions) && Prefix(j.attempts, j'.attempts)
    requires |j.actions| < |j'.actions| ==> |j.attempts| <= j'.actions[|j.actions|].attemptedStep
    ensures Resumed(cpu, j', h, i)
  {
    var (a, b) := (h[i], h[i + 1]);
    PlaceGrows(cpu, j, h, i);
    PlacesWalk(cpu, j, h);
    WalkIndex(j, Positions(h), i);
    assert Told(a) && Told(b);
    if Due(j, a.at.pos) {
      assert PerformUntil(cpu, j', false, a.at, a.at.pos.actions + 1)
          == PerformUntil(cpu, j', false, b.at, a.at.pos.actions + 1);
    } else {
      assert j'.attempts[a.at.pos.attemptedSteps] == j.attempts[a.at.pos.attemptedSteps];
      var more := j'.records[|j.records|..];
      assert j'.records == j.records + more;
      PlaybackIgnoresSuffix(cpu.step(a.at.state.core), j.records, more, a.at.pos.busRecords, a.pending);
    }
  }

  /** The session stands at the end of the run `h`, and its error is pending there too. */
  ghost predicate Stands(cpu: Cpu, s: Session, h: seq<Place>) {
    && Described(cpu, s.journal, h) && h[|h| - 1] == PlaceOf(s)
    && (s.pending.Some? ==> s.pending.value.LiveHost?)
  }

  /** Where a session stands, as a replay comes to it. */
  function PlaceOf(s: Session): Place {
    Place(s.at, if s.pending.None? then None
                else Some(RecordedHostFailure(if s.at.pos.busRecords == 0 then 0 else s.at.pos.busRecords - 1)))
  }

  /** A live step and its playback do the same, with and without an error pending. */
  lemma StepReplays(cpu: Cpu, host: Host, s: Session, h: seq<Place>)
    requires Stands(cpu, s, h)
    ensures var n := Next(cpu, host, s, Operation.Step);
            && Redo(cpu, n.journal, PlaceOf(s)) == Some(PlaceOf(n)) && Told(PlaceOf(n))
            && n.journal.attempts[..|s.journal.attempts|] == s.journal.attempts
            && (n.pending.Some? ==> n.pending.value.LiveHost?)
  {
    var n := Next(cpu, host, s, Operation.Step);
    var (run, step) := (StepRun(cpu, host, s), cpu.step(s.at.state.core));
    PlacesWalk(cpu, s.journal, h);
    WalkIndex(s.journal, Positions(h), |h| - 1);
    assert Told(PlaceOf(s));
    if s.pending.None? {
      PlaybackRepeatsLive(step, host, s.inner, s.journal.records, []);
      assert s.journal.records + run.records + [] == n.journal.records;
      FailedCallIsLast(step, host, s.inner);
    } else {
      NoCallAfterFailure(step, host, s.inner, n.journal.records, s.at.pos.busRecords, s.pending.value,
                         PlaceOf(s).pending.value);
    }
  }

  /** Whatever is done next, the journal goes on describing the run. */
  lemma NextStands(cpu: Cpu, host: Host, s: Session, h: seq<Place>, op: Operation)
    requires Stands(cpu, s, h)
    ensures var n := Next(cpu, host, s, op);
            Stands(cpu, n, h + [PlaceOf(n)])
  {
    var n := Next(cpu, host, s, op);
    var (j, j', h') := (s.journal, n.journal, h + [PlaceOf(n)]);
    var last := h[|h| - 1];
    PlacesWalk(cpu, j, h);
    WalkIndex(j, Positions(h), |h| - 1);
    assert Told(last);
    if op.Step? {
      StepReplays(cpu, host, s, h);
      assert !Due(j', last.at.pos);
    } else {
      assert Due(j', last.at.pos);
      assert PerformUntil(cpu, j', false, last.at, last.at.pos.actions + 1)
          == PerformUntil(cpu, j', false, n.at, last.at.pos.actions + 1);
    }
    forall i | 0 <= i < |h'| - 1
      ensures Resumed(cpu, j', h', i)
    {
      if i + 1 < |h| {
        PlaceExtends(cpu, j, j', h, i);
        assert Resumed(cpu, j', h, i);
      }
    }
    forall i | 0 <= i < |h'|
      ensures Told(h'[i])
    {
      assert i < |h| ==> Told(h[i]);
    }
  }

  /** The places after each of the operations. */
  function Story(cpu: Cpu, host: Host, s: Session, ops: seq<Operation>): (story: seq<Place>)
    ensures |story| == |ops|
  {
    if ops == [] then []
    else Story(cpu, host, s, ops[..|ops| - 1]) + [PlaceOf(Run(cpu, host, s, ops))]
  }

  /** Whatever is done, the journal describes it. */
  lemma {:induction false} RunStands(cpu: Cpu, host: Host, s: Session, h: seq<Place>, ops: seq<Operation>)
    requires Stands(cpu, s, h)
    ensures Stands(cpu, Run(cpu, host, s, ops), h + Story(cpu, host, s, ops))
    decreases |ops|
  {
    if ops == [] {
      assert h + [] == h;
    } else {
      var (less, last) := (ops[..|ops| - 1], ops[|ops| - 1]);
      RunStands(cpu, host, s, h, less);
      NextStands(cpu, host, Run(cpu, host, s, less), h + Story(cpu, host, s, less), last);
      assert h + Story(cpu, host, s, less) + [PlaceOf(Run(cpu, host, s, ops))] == h + Story(cpu, host, s, ops);
    }
  }

  /** The place after some of the operations. */
  lemma {:induction false} StoryAt(cpu: Cpu, host: Host, s: Session, ops: seq<Operation>, k: nat)
    requires k < |ops|
    ensures Story(cpu, host, s, ops)[k] == PlaceOf(Run(cpu, host, s, ops[..k + 1]))
    decreases |ops|
  {
    if k == |ops| - 1 {
      assert ops[..k + 1] == ops;
    } else {
      var less := ops[..|ops| - 1];
      assert less[..k + 1] == ops[..k + 1];
      StoryAt(cpu, host, s, less, k);
    }
  }

  /** A recording begins at a place like this. */
  lemma StartStands(cpu: Cpu, st: MachineState, inner: HostState)
    ensures Stands(cpu, StartSession(st, inner), [PlaceOf(StartSession(st, inner))])
  {
    var s := StartSession(st, inner);
    assert Told(PlaceOf(s));
  }

  function StartSession(st: MachineState, inner: HostState): Session {
    Session(Journal([], [], []), Snap(Position(0, st.core.cycleCount, 0, 0), st), inner, None)
  }

  function WithoutErrors(h: seq<Snap>): (places: seq<Place>)
    ensures |places| == |h|
  {
    seq(|h|, i requires 0 <= i < |h| => Place(h[i], None))
  }

  /** A run that is recorded without hidden failures is described. */
  lemma RecordedIsDescribed(cpu: Cpu, j: Journal, h: seq<Snap>)
    requires Recorded(cpu, j, h)
    ensures Described(cpu, j, WithoutErrors(h))
  {
    var places := WithoutErrors(h);
    forall i | 0 <= i < |places| - 1
      ensures Resumed(cpu, j, places, i)
    {
      assert Linked(cpu, j, h, i);
    }
  }

  /** So is the run of a timeline, and it can go on from there. */
  lemma TimelineStands(timeline: Timeline)
    requires timeline.Valid() && timeline.mode == Mode.Live
    ensures Stands(timeline.cpu, SessionOf(timeline), WithoutErrors(timeline.history))
  {
    EndsHere(timeline);
    RecordedIsDescribed(timeline.cpu, timeline.J(), timeline.history);
  }

  // ------------------------------------------------------------- when a checkpoint leads there

  /** On a machine like `try_step`, a pending error is thrown before any access. */
  lemma {:induction false} ThrownAtOnce(p: Parts, code: Code, records: seq<BusRecord>, cursor: nat,
                                        error: BusError)
    ensures var run := RunPlay(Seq(code, AfterDma(p)), records, cursor, Some(error));
            run.ret == Threw(error) && run.cursor == cursor
    decreases code
  {
    match code
    case Ask(_, _, failed) =>
      ThrownAtOnce(p, failed, records, cursor, error);
      assert Seq(code, AfterDma(p)).After(None) == Seq(failed, AfterDma(p));
    case Touch(skipped, _) => ThrownAtOnce(p, skipped, records, cursor, error);
    case Tell(_, next) => ThrownAtOnce(p, next, records, cursor, error);
    case Done(_, _) =>
  }

  /** A failure that a step throws has been consumed. */
  lemma {:induction false} ThrownIsConsumed(s: Step, records: seq<BusRecord>, cursor: nat,
                                            pending: Option<BusError>)
    requires pending.Some? && pending.value.RecordedHostFailure? ==> pending.value.record < cursor
    ensures var run := RunPlay(s, records, cursor, pending);
            run.ret.Threw? && run.ret.error.RecordedHostFailure? ==> run.ret.error.record < run.cursor
    decreases s
  {
    match s
    case Call(access, _, _) =>
      if pending.Some? {
        ThrownIsConsumed(s.After(None), records, cursor, pending);
      } else {
        var (got, cursor') := PlayAccess(records, cursor, access);
        ThrownIsConsumed(s.After(Reply(got)), records, cursor', Pending(got));
      }
    case Guarded(skipped, next) =>
      ThrownIsConsumed(if pending.Some? then skipped else next, records, cursor, pending);
    case Report(_, next) => ThrownIsConsumed(next, records, cursor, pending);
    case IfFailed(_, next) =>
      if pending.None? {
        ThrownIsConsumed(next, records, cursor, pending);
      }
    case Finish(_, _) =>
  }

  /** With another error pending than the run had, the next attempt never agrees with the journal. */
  lemma WrongErrorDiverges(p: Parts, cpu: Cpu, j: Journal, a: Place, pending: Option<BusError>)
    requires cpu.step(a.at.state.core) == TryStep(p, a.at.state.core)
    requires Told(a) && Redo(cpu, j, a).Some? && pending != a.pending
    ensures Redo(cpu, j, a.(pending := pending)) == None
  {
    var (c, cursor) := (a.at.state.core, a.at.pos.busRecords);
    var dma := p.serviceDma(p.begin(c));
    if a.pending.Some? {
      ThrownAtOnce(p, dma, j.records, cursor, a.pending.value);
    }
    if pending.Some? {
      ThrownAtOnce(p, dma, j.records, cursor, pending.value);
    }
    PlayedFailureIsAhead(TryStep(p, c), j.records, cursor, cursor, None);
    ThrownIsConsumed(TryStep(p, c), j.records, cursor, None);
  }

  /** Replay that begins at a place of the run, but with `pending` pending, comes to a later position exactly if
      it has to repeat no attempt, or the same error was pending in the run. */
  lemma RedoArrivesIff(p: Parts, cpu: Cpu, j: Journal, h: seq<Place>, i: nat, pending: Option<BusError>,
                       target: Position)
    requires forall c :: cpu.step(c) == TryStep(p, c)
    requires Described(cpu, j, h) && i < |h| && ValidPosition(j, h[0].at.pos, target)
    requires h[i].at.pos.attemptedSteps <= target.attemptedSteps && h[i].at.pos.actions <= target.actions
    ensures Index(target) < |h|
    ensures RedoTo(cpu, j, h[i].(pending := pending), target)
         == if h[i].at.pos.attemptedSteps == target.attemptedSteps then
              Some(h[Index(target)].(pending := pending))
            else if pending == h[i].pending then Some(h[Index(target)])
            else None
  {
    RedoFollows(cpu, j, h, i, target);
    if h[i].at.pos.attemptedSteps < target.attemptedSteps && pending != h[i].pending {
      var before := AttemptGoesOn(cpu, j, h, i);
      assert Told(h[before]);
      WrongErrorDiverges(p, cpu, j, h[before], pending);
    }
  }

  /** A checkpoint taken of the run holds its state, but not the error pending there. */
  ghost predicate TakenAtPlace(cpu: Cpu, h: seq<Place>, cp: Checkpoint) {
    && Index(cp.position) < |h| && h[Index(cp.position)].at.pos == cp.position
    && cpu.load(cp.state) == Some(h[Index(cp.position)].at.state)
  }

  /** So a seek on a machine without a pending error arrives exactly if it has to repeat no attempt, or the
      checkpoint that it starts from was not taken right after an attempt that hid a failure. */
  lemma SeekArrivesIff(p: Parts, cpu: Cpu, j: Journal, h: seq<Place>, cps: seq<Checkpoint>, target: Position)
    requires forall c :: cpu.step(c) == TryStep(p, c)
    requires Described(cpu, j, h) && ValidPosition(j, h[0].at.pos, target)
    requires Choose(cps, target).Some? && TakenAtPlace(cpu, h, cps[Choose(cps, target).value])
    ensures var cp := cps[Choose(cps, target).value];
            var found := RedoSeek(cpu, j, cps, target, None);
            && (found.Some? <==> cp.position.attemptedSteps == target.attemptedSteps
                                 || h[Index(cp.position)].pending == None)
            && (found.Some? ==> Index(target) < |h| && found.value.at == h[Index(target)].at)
  {
    var cp := cps[Choose(cps, target).value];
    var i := Index(cp.position);
    CursorInside(cpu, j, h, i);
    RedoArrivesIff(p, cpu, j, h, i, None, target);
  }

  /** Record anything, hidden failures included, then go back to where `before` had led: the seek arrives exactly
      if it has to repeat no attempt or its checkpoint was taken where no error was pending, and then the machine
      is as it was there. */
  lemma AnyReturn(p: Parts, cpu: Cpu, host: Host, s: Session, h: seq<Place>, before: seq<Operation>,
                  after: seq<Operation>, cps: seq<Checkpoint>)
    requires forall c :: cpu.step(c) == TryStep(p, c)
    requires Stands(cpu, s, h)
    requires var target := Run(cpu, host, s, before).at.pos;
             && Choose(cps, target).Some?
             && TakenAtPlace(cpu, h + Story(cpu, host, s, before + after), cps[Choose(cps, target).value])
    ensures var (there, end) := (Run(cpu, host, s, before), Run(cpu, host, s, before + after));
            var run := h + Story(cpu, host, s, before + after);
            var cp := cps[Choose(cps, there.at.pos).value];
            var found := RedoSeek(cpu, end.journal, cps, there.at.pos, None);
            && (found.Some? <==> cp.position.attemptedSteps == there.at.pos.attemptedSteps
                                 || run[Index(cp.position)].pending == None)
            && (found.Some? ==> found.value.at == there.at)
  {
    var (there, end) := (Run(cpu, host, s, before), Run(cpu, host, s, before + after));
    var run := h + Story(cpu, host, s, before + after);
    RunStands(cpu, host, s, h, before + after);
    PlacesWalk(cpu, end.journal, run);
    var k := |h| - 1 + |before|;
    if before != [] {
      StoryAt(cpu, host, s, before + after, |before| - 1);
      assert (before + after)[..|before|] == before;
    }
    assert run[k] == PlaceOf(there);
    WalkIndex(end.journal, Positions(run), k);
    ValidOnWalk(end.journal, Positions(run), there.at.pos);
    SeekArrivesIff(p, cpu, end.journal, run, cps, there.at.pos);
  }

  /** The cursor never runs back. */
  lemma {:induction false} CursorInside(cpu: Cpu, j: Journal, h: seq<Place>, i: nat)
    requires Described(cpu, j, h) && i < |h|
    ensures h[i].at.pos.busRecords <= |j.records|
    decreases |h| - i
  {
    if i < |h| - 1 {
      CursorInside(cpu, j, h, i + 1);
      PlaceGrows(cpu, j, h, i);
      var a := h[i];
      if !Due(j, a.at.pos) {
        CursorGrows(cpu.step(a.at.state.core), j.records, a.at.pos.busRecords, a.pending);
      }
    }
  }

  lemma {:induction false} CursorGrows(s: Step, records: seq<BusRecord>, cursor: nat,
                                       pending: Option<BusError>)
    ensures cursor <= RunPlay(s, records, cursor, pending).cursor
    decreases s
  {
    match s
    case Call(access, _, _) =>
      if pending.Some? {
        CursorGrows(s.After(None), records, cursor, pending);
      } else {
        var (got, cursor') := PlayAccess(records, cursor, access);
        CursorGrows(s.After(Reply(got)), records, cursor', Pending(got));
      }
    case Guarded(skipped, next) =>
      CursorGrows(if pending.Some? then skipped else next, records, cursor, pending);
    case Report(_, next) => CursorGrows(next, records, cursor, pending);
    case IfFailed(_, next) =>
      if pending.None? {
        CursorGrows(next, records, cursor, pending);
      }
    case Finish(_, _) =>
  }

  // ------------------------------------------------------------- a checkpoint that leads nowhere

  /** A machine whose every opcode traps, on a host whose memory takes no writes: one step hides the failure, the
      next one throws it. */
  lemma TrapsAndThrows(c: CoreState, h: HostState, e: HostError, pending: Option<BusError>)
    ensures RunLive(TryStep(TrappingParts(), c), ReadOnlyHost(e), h, pending)
         == (match pending
             case None =>
               LiveRun(c.(cycleCount := c.cycleCount + 6), h,
                       [BusRecord(MemRead(0), Some(0), false), BusRecord(MemWrite(0xFFFF, 0), None, true)], [],
                       Hidden(6, LiveHost(e)))
             case Some(error) => LiveRun(c, h, [], [], Threw(error)))
  {
    TrappingStep(c);
    TrapHidesFailure(c, h, e);
    if pending == None {
      var (host, error) := (ReadOnlyHost(e), Some(LiveHost(e)));
      var last := Finish(c.(cycleCount := c.cycleCount + 6), 6);
      var second := Call(MemWrite(0xFFFE, 0), [last], last);
      var push := Call(MemWrite(0xFFFF, 0), [second], second);
      var trapped := IfFailed(c, push);
      assert second.After(None) == last && push.After(None) == second;
      assert RunLive(last, host, h, error) == RunLive(second, host, h, error);
      assert RunLive(push, host, h, None).core == last.core && RunLive(push, host, h, None).notes == [];
      var fetch := Call(MemRead(0), [trapped], trapped);
      assert fetch.After(Some(0)) == trapped;
      assert host.respond(h, MemRead(0)) == (h, Success(0));
      assert RunLive(fetch, host, h, None).core == last.core && RunLive(fetch, host, h, None).notes == [];
      assert RunLive(TryStep(TrappingParts(), c), host, h, None) == RunLive(IfFailed(c, fetch), host, h, None);
      assert RunLive(IfFailed(c, fetch), host, h, None) == RunLive(fetch, host, h, None);
    }
  }

  function Steps(n: nat): seq<Operation> {
    seq(n, _ => Operation.Step)
  }

  lemma {:induction false} EveryOtherHides(codec: Cpu, e: HostError, s: Session, n: nat)
    requires s.pending == None
    ensures var r := Run(TrappingCpu(codec), ReadOnlyHost(e), s, Steps(n));
            && r.pending == (if n % 2 == 0 then None else Some(LiveHost(e)))
            && r.at.pos.attemptedSteps == s.at.pos.attemptedSteps + n
            && r.at.state.debug == s.at.state.debug
            && exists cycles: nat :: r.at.state.core == s.at.state.core.(cycleCount := cycles)
    decreases n
  {
    if n > 0 {
      EveryOtherHides(codec, e, s, n - 1);
      assert Steps(n)[..n - 1] == Steps(n - 1);
      var r := Run(TrappingCpu(codec), ReadOnlyHost(e), s, Steps(n - 1));
      TrapsAndThrows(r.at.state.core, r.inner, e, r.pending);
    }
  }

  /** Four steps of that machine, recorded with a checkpoint at every third: the last position is valid, but a
      seek does not arrive there, because the checkpoint has forgotten the error that the fourth step threw. */
  lemma LeadsNowhere(codec: Cpu, st: MachineState, inner: HostState, e: HostError)
    returns (cps: seq<Checkpoint>)
    requires codec.Lawful() && ClockFree(codec) && codec.Sound(st)
    ensures var (cpu, host, s) := (TrappingCpu(codec), ReadOnlyHost(e), StartSession(st, inner));
            var (third, end) := (Run(cpu, host, s, Steps(3)), Run(cpu, host, s, Steps(4)));
            && cps == [Checkpoint(s.at.pos, cpu.save(st)), Checkpoint(third.at.pos, cpu.save(third.at.state))]
            && third.at.pos.attemptedSteps == 3 && end.at.pos.attemptedSteps == 4
            && ValidPosition(end.journal, s.at.pos, end.at.pos)
            && RedoSeek(cpu, end.journal, cps, end.at.pos, None) == None
  {
    hide Run, Described;
    var (cpu, host, s) := (TrappingCpu(codec), ReadOnlyHost(e), StartSession(st, inner));
    var (third, end) := (Run(cpu, host, s, Steps(3)), Run(cpu, host, s, Steps(4)));
    cps := [Checkpoint(s.at.pos, cpu.save(st)), Checkpoint(third.at.pos, cpu.save(third.at.state))];
    EveryOtherHides(codec, e, s, 3);
    EveryOtherHides(codec, e, s, 4);
    TrappingCpuIsLawful(codec);
    assert cpu.Reloads(third.at.state);
    StartStands(cpu, st, inner);
    RunStands(cpu, host, s, [PlaceOf(s)], Steps(4));
    var run := [PlaceOf(s)] + Story(cpu, host, s, Steps(4));
    StoryAt(cpu, host, s, Steps(4), 2);
    assert Steps(4)[..3] == Steps(3);
    PlacesWalk(cpu, end.journal, run);
    WalkIndex(end.journal, Positions(run), 3);
    WalkIndex(end.journal, Positions(run), 4);
    ValidOnWalk(end.journal, Positions(run), end.at.pos);
    SeekArrivesIff(TrappingParts(), cpu, end.journal, run, cps, end.at.pos);
  }
}
