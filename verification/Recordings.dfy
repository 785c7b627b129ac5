/**
 Recordings (recording.rs): what an importer checks before it replays, and how a successful replay
 reconstructs the recorded run. The archive encoding is not modelled: a recording is its fields.
 */
module Recordings {
  import opened Basics
  import opened Machine
  import opened Transcript
  import opened ReplayBuses
  import opened Journals
  import opened Accesses
  import opened Checkpoints
  import opened Timelines
  import opened Stepping

  datatype Recording = Recording(format: string, version: nat, options: Options, position: Position,
                                 records: seq<BusRecord>, actions: seq<ActionRecord>,
                                 attempts: seq<AttemptRecord>, checkpoints: seq<Checkpoint>)
  {
    function J(): Journal {
      Journal(records, actions, attempts)
    }
  }

  /** The recording describes the run `h`: its journal is that of `h`, its checkpoints were taken from
      `h` and its saved position is one of `h`. */
  ghost predicate Faithful(cpu: Cpu, rec: Recording, h: seq<Snap>) {
    && rec.format == "z180-replay" && rec.version == 1 && rec.options.Valid()
    && Recorded(cpu, rec.J(), h)
    && Stored(cpu, rec.J(), h, rec.checkpoints, rec.options.maxCheckpoints)
    && WasAt(h, rec.position)
  }

  // ----------------------------------------------------------------------------- the static checks

  /** The `invalid attempt index` test for attempt `i`. */
  predicate AttemptIndexed(rec: Recording, i: nat)
    requires 0 < |rec.checkpoints| && i < |rec.attempts|
  {
    var previous := EndOf(rec.J(), rec.checkpoints[0].position, i);
    var end := rec.attempts[i].end;
    && end.attemptedSteps == i + 1
    && previous.actions <= end.actions <= |rec.actions|
    && previous.busRecords <= end.busRecords <= |rec.records|
    && previous.cycle <= end.cycle
  }

  /** The `checkpoint is not at an attempt boundary` and `invalid checkpoint position` tests. */
  predicate CheckpointIndexed(rec: Recording, cp: Checkpoint)
    requires 0 < |rec.checkpoints|
  {
    && cp.position.attemptedSteps <= |rec.attempts|
    && cp.position == EndOf(rec.J(), rec.checkpoints[0].position, cp.position.attemptedSteps)
    && ValidPosition(rec.J(), rec.checkpoints[0].position, cp.position)
  }

  /** Everything `import_recording` checks without running the machine. */
  predicate Shaped(rec: Recording) {
    && rec.format == "z180-replay" && rec.version == 1
    && 0 < |rec.checkpoints| <= rec.options.maxCheckpoints
    && rec.options.Valid()
    && (var start := rec.checkpoints[0].position;
        start.attemptedSteps == start.actions == start.busRecords == 0)
    && (forall i :: 0 <= i < |rec.attempts| ==> AttemptIndexed(rec, i))
    && (forall i :: 0 < i < |rec.actions| ==>
          rec.actions[i - 1].attemptedStep <= rec.actions[i].attemptedStep)
    && (0 < |rec.actions| ==> rec.actions[|rec.actions| - 1].attemptedStep <= |rec.attempts|)
    && (forall i :: 0 < i < |rec.checkpoints| ==>
          rec.checkpoints[i - 1].position.attemptedSteps < rec.checkpoints[i].position.attemptedSteps)
    && (forall i :: 0 <= i < |rec.checkpoints| ==> CheckpointIndexed(rec, rec.checkpoints[i]))
    && ValidPosition(rec.J(), rec.checkpoints[0].position, rec.position)
  }

  lemma EndsGrow(cpu: Cpu, j: Journal, h: seq<Snap>, k: nat)
    requires cpu.Lawful() && Recorded(cpu, j, h) && 0 < k <= |j.attempts|
    ensures var (a, b) := (EndOf(j, h[0].pos, k - 1), EndOf(j, h[0].pos, k));
            && b.attemptedSteps == k
            && a.actions <= b.actions <= |j.actions|
            && a.busRecords <= b.busRecords <= |j.records|
            && a.cycle <= b.cycle
  {
    ChainIndex(cpu, j, h, |h| - 1);
    ChainReaches(cpu, j, h, k, |h| - 1);
    var i := Index(EndOf(j, h[0].pos, k));
    ChainIndex(cpu, j, h, i);
    ChainSound(cpu, j, h, i);
    EntryGrows(cpu, j, h, i - 1);
    SameBoundary(cpu, j, h, i - 1);
  }

  lemma ActionsInOrder(cpu: Cpu, j: Journal, h: seq<Snap>, x: nat)
    requires Recorded(cpu, j, h) && x < |j.actions|
    ensures j.actions[x].attemptedStep <= |j.attempts|
    ensures x + 1 < |j.actions| ==> j.actions[x].attemptedStep <= j.actions[x + 1].attemptedStep
  {
    ChainIndex(cpu, j, h, |h| - 1);
    ChainWalks(cpu, j, h);
    var k := TakenAt(j, Positions(h), x, |h| - 1);
    ChainIndex(cpu, j, h, k);
    if x + 1 < |j.actions| {
      ActionsSplit(cpu, j, h, k, x + 1);
    }
  }

  /** Every faithful recording passes the static checks. */
  lemma FaithfulIsShaped(cpu: Cpu, rec: Recording, h: seq<Snap>)
    requires cpu.Lawful() && Faithful(cpu, rec, h)
    ensures Shaped(rec)
  {
    var j := rec.J();
    forall i | 0 <= i < |rec.attempts|
      ensures AttemptIndexed(rec, i)
    {
      EndsGrow(cpu, j, h, i + 1);
    }
    forall i | 0 < i < |rec.actions|
      ensures rec.actions[i - 1].attemptedStep <= rec.actions[i].attemptedStep
    {
      ActionsInOrder(cpu, j, h, i - 1);
    }
    if 0 < |rec.actions| {
      ActionsInOrder(cpu, j, h, |rec.actions| - 1);
    }
    forall i | 0 < i < |rec.checkpoints|
      ensures rec.checkpoints[i - 1].position.attemptedSteps < rec.checkpoints[i].position.attemptedSteps
    {
      assert Ats(rec.checkpoints)[i - 1] < Ats(rec.checkpoints)[i];
    }
    forall i | 0 <= i < |rec.checkpoints|
      ensures CheckpointIndexed(rec, rec.checkpoints[i])
    {
      assert Taken(cpu, j, h, rec.checkpoints[i]);
      ValidPositionIff(cpu, j, h, rec.checkpoints[i].position);
    }
    ValidPositionIff(cpu, j, h, rec.position);
  }

  // ------------------------------------------------------------------- rebuilding the recorded run

  /** Replaying actions extends a chain action by action. */
  lemma {:induction false} ActionsRebuild(cpu: Cpu, j: Journal, h: seq<Snap>, limit: nat)
    returns (h': seq<Snap>)
    requires Chain(cpu, j, h)
    requires PerformUntil(cpu, j, false, h[|h| - 1], limit).Some?
    ensures Chain(cpu, j, h') && Prefix(h, h')
    ensures PerformUntil(cpu, j, false, h[|h| - 1], limit) == Some(h'[|h'| - 1])
    decreases limit - h[|h| - 1].pos.actions
  {
    var a := h[|h| - 1];
    if a.pos.actions >= limit {
      h' := h;
    } else {
      var state := Perform(cpu, a.state, j.actions[a.pos.actions].action, false).value;
      var b := Snap(a.pos.(actions := a.pos.actions + 1), state);
      assert PerformUntil(cpu, j, false, a, a.pos.actions + 1)
          == PerformUntil(cpu, j, false, b, a.pos.actions + 1);
      Appended(cpu, j, h, b);
      h' := ActionsRebuild(cpu, j, h + [b], limit);
      assert h'[..|h|] == h'[..|h + [b]|][..|h|] == h;
    }
  }

  lemma Appended(cpu: Cpu, j: Journal, h: seq<Snap>, b: Snap)
    requires Chain(cpu, j, h) && Advance(cpu, j, h[|h| - 1]) == Some(b)
    ensures Chain(cpu, j, h + [b])
  {
    var h' := h + [b];
    forall i | 0 <= i < |h'| - 1
      ensures Linked(cpu, j, h', i)
    {
      if i + 1 < |h| {
        assert Linked(cpu, j, h, i);
      }
    }
  }

  /** Replaying an attempt extends a chain up to the end of that attempt. */
  lemma AttemptRebuilds(cpu: Cpu, j: Journal, h: seq<Snap>) returns (h': seq<Snap>)
    requires Chain(cpu, j, h) && NextAttempt(cpu, j, false, h[|h| - 1]).Some?
    ensures Chain(cpu, j, h') && Prefix(h, h')
    ensures NextAttempt(cpu, j, false, h[|h| - 1]) == Some(h'[|h'| - 1])
  {
    var a := h[|h| - 1];
    var limit := BoundaryLimit(j.actions, a.pos.actions, a.pos.attemptedSteps);
    var mid := ActionsRebuild(cpu, j, h, limit);
    var b := mid[|mid| - 1];
    ChainIndex(cpu, j, h, |h| - 1);
    assert !Due(j, b.pos);
    var c := Attempt(cpu, j, b).value;
    Appended(cpu, j, mid, c);
    h' := mid + [c];
    assert h'[..|h|] == mid[..|h|];
  }

  /** A chain with the same start as a recorded run is the beginning of it. */
  lemma {:induction false} ChainIsUnique(cpu: Cpu, j: Journal, h: seq<Snap>, hh: seq<Snap>, n: nat)
    requires Chain(cpu, j, h) && Recorded(cpu, j, hh) && h[0] == hh[0] && n < |h|
    ensures n < |hh| && h[n] == hh[n]
    decreases n
  {
    if n > 0 {
      ChainIsUnique(cpu, j, h, hh, n - 1);
      assert Linked(cpu, j, h, n - 1);
      EntryGrows(cpu, j, h, n - 1);
      ChainIndex(cpu, j, h, n);
      assert Linked(cpu, j, hh, n - 1);
    }
  }

  // -------------------------------------------------------------------------- what an import tests

  /** The replay stands at a checkpoint that holds another state. */
  predicate Contradicted(cpu: Cpu, rec: Recording, a: Snap) {
    exists i :: 0 <= i < |rec.checkpoints|
             && rec.checkpoints[i].position == a.pos && rec.checkpoints[i].state != cpu.save(a.state)
  }

  /** The loop of the validating replay: attempt by attempt to the end, comparing checkpoints. */
  function Validate(cpu: Cpu, rec: Recording, p: Place): Option<Place>
    decreases |rec.attempts| - p.at.pos.attemptedSteps
  {
    if p.at.pos.attemptedSteps >= |rec.attempts| then Some(p)
    else
      match RedoNext(cpu, rec.J(), false, p)
      case None => None
      case Some(q) => if Contradicted(cpu, rec, q.at) then None else Validate(cpu, rec, q)
  }

  predicate Loads(cpu: Cpu, rec: Recording) {
    forall i :: 0 <= i < |rec.checkpoints| ==> cpu.load(rec.checkpoints[i].state).Some?
  }

  /** Where checkpoint 0 puts the machine. */
  function Origin(cpu: Cpu, rec: Recording): Snap
    requires 0 < |rec.checkpoints| && cpu.load(rec.checkpoints[0].state).Some?
  {
    Snap(rec.checkpoints[0].position, cpu.load(rec.checkpoints[0].state).value)
  }

  /** All that `import_recording` tests, in the presence of steps that return normally with a bus error
      pending. */
  predicate Accepts(cpu: Cpu, rec: Recording) {
    && Shaped(rec) && Loads(cpu, rec)
    && Origin(cpu, rec).state.core.cycleCount == Origin(cpu, rec).pos.cycle
    && match Validate(cpu, rec, Place(Origin(cpu, rec), None))
       case None => false
       case Some(p) =>
         && PerformUntil(cpu, rec.J(), false, p.at, |rec.actions|).Some?
         && p.at.pos.busRecords == |rec.records|
         && RedoSeek(cpu, rec.J(), rec.checkpoints, rec.position, p.pending).Some?
  }

  /** Replayed from checkpoint 0, some attempt matches its log entry but hides a bus failure. */
  predicate HidesFailure(cpu: Cpu, rec: Recording) {
    && 0 < |rec.checkpoints| && cpu.load(rec.checkpoints[0].state).Some?
    && HidesFrom(cpu, rec.J(), Origin(cpu, rec))
  }

  // ------------------------------------------------------------ a recording of a run is accepted

  lemma FaithfulLoads(cpu: Cpu, rec: Recording, h: seq<Snap>)
    requires Faithful(cpu, rec, h)
    ensures Loads(cpu, rec) && 0 < |rec.checkpoints| && h[0] == Origin(cpu, rec)
    ensures h[0].state.core.cycleCount == h[0].pos.cycle
  {
    forall i | 0 <= i < |rec.checkpoints|
      ensures cpu.load(rec.checkpoints[i].state).Some?
    {
      assert Taken(cpu, rec.J(), h, rec.checkpoints[i]);
    }
    assert Taken(cpu, rec.J(), h, rec.checkpoints[0]);
  }

  /** The replay of a run hides nothing. */
  lemma {:induction false} RunHidesNothing(cpu: Cpu, j: Journal, h: seq<Snap>, i: nat)
    requires Recorded(cpu, j, h) && i < |h|
    ensures !HidesFrom(cpu, j, h[i])
    decreases |h| - i
  {
    if h[i].pos.attemptedSteps < |j.attempts| {
      var before := AttemptFollows(cpu, j, h, i);
      RedoNextIs(cpu, j, false, h[i]);
      RunHidesNothing(cpu, j, h, before + 1);
    }
  }

  /** No checkpoint of a faithful recording contradicts an entry of its run. */
  lemma FaithfulAgrees(cpu: Cpu, rec: Recording, h: seq<Snap>, i: nat)
    requires Faithful(cpu, rec, h) && 0 < i < |h|
    ensures !Contradicted(cpu, rec, h[i])
  {
    forall k | 0 <= k < |rec.checkpoints| && rec.checkpoints[k].position == h[i].pos
      ensures rec.checkpoints[k].state == cpu.save(h[i].state)
    {
      WasAtOnce(cpu, rec.J(), h, h[i].pos);
      assert k != 0;
      assert Saved(cpu, h, rec.checkpoints[k]);
    }
  }

  /** From any entry of its run a faithful recording replays to the last attempt, and every checkpoint on
      the way is the state the run had there. */
  lemma {:induction false} FaithfulValidates(cpu: Cpu, rec: Recording, h: seq<Snap>, i: nat)
    returns (k: nat)
    requires Faithful(cpu, rec, h) && i < |h|
    ensures i <= k < |h| && h[k].pos.attemptedSteps == |rec.attempts|
    ensures Validate(cpu, rec, Place(h[i], None)) == Some(Place(h[k], None))
    decreases |h| - i
  {
    ChainIndex(cpu, rec.J(), h, i);
    if h[i].pos.attemptedSteps < |rec.attempts| {
      var before := AttemptFollows(cpu, rec.J(), h, i);
      RedoNextIs(cpu, rec.J(), false, h[i]);
      FaithfulAgrees(cpu, rec, h, before + 1);
      k := FaithfulValidates(cpu, rec, h, before + 1);
    } else {
      k := i;
    }
  }

  /** After the last attempt the remaining actions lead to the end of the run. */
  lemma LastActions(cpu: Cpu, j: Journal, h: seq<Snap>, k: nat)
    requires Recorded(cpu, j, h) && k < |h| && h[k].pos.attemptedSteps == |j.attempts|
    ensures PerformUntil(cpu, j, false, h[k], |j.actions|) == Some(h[|h| - 1])
    ensures h[k].pos.busRecords == |j.records|
  {
    ChainIndex(cpu, j, h, k);
    forall x | h[k].pos.actions <= x < |j.actions|
      ensures j.actions[x].attemptedStep == h[k].pos.attemptedSteps
    {
      ActionsSplit(cpu, j, h, k, x);
      ActionsInOrder(cpu, j, h, x);
    }
    ActionsFollow(cpu, j, h, k, |j.actions|);
  }

  lemma FaithfulIsAccepted(cpu: Cpu, rec: Recording, h: seq<Snap>)
    requires cpu.Lawful() && Faithful(cpu, rec, h)
    ensures Accepts(cpu, rec) && !HidesFailure(cpu, rec)
  {
    FaithfulIsShaped(cpu, rec, h);
    FaithfulLoads(cpu, rec, h);
    RunHidesNothing(cpu, rec.J(), h, 0);
    var k := FaithfulValidates(cpu, rec, h, 0);
    LastActions(cpu, rec.J(), h, k);
    SeekFacts(cpu, rec.J(), h, rec.checkpoints, rec.options, rec.position);
  }

  // ------------------------------------------------------------- an accepted recording is of a run

  /** The checkpoints up to the last attempt of `h`, other than checkpoint 0, were saved from `h`. */
  ghost predicate SavedSoFar(cpu: Cpu, h: seq<Snap>, cps: seq<Checkpoint>)
    requires 0 < |h|
  {
    forall i {:trigger Saved(cpu, h, cps[i])} ::
      1 <= i < |cps| && cps[i].position.attemptedSteps <= h[|h| - 1].pos.attemptedSteps ==>
        Saved(cpu, h, cps[i]) && h[Index(cps[i].position)].pos == cps[i].position
  }

  lemma SavedOneMore(cpu: Cpu, rec: Recording, h: seq<Snap>, h': seq<Snap>)
    requires Shaped(rec) && Chain(cpu, rec.J(), h) && Chain(cpu, rec.J(), h') && Prefix(h, h')
    requires SavedSoFar(cpu, h, rec.checkpoints)
    requires h[|h| - 1].pos.attemptedSteps < |rec.attempts|
    requires var end := h'[|h'| - 1];
             && end.pos == rec.attempts[h[|h| - 1].pos.attemptedSteps].end
             && end.pos.attemptedSteps == h[|h| - 1].pos.attemptedSteps + 1
             && !Contradicted(cpu, rec, end)
    ensures SavedSoFar(cpu, h', rec.checkpoints)
  {
    var end := h'[|h'| - 1];
    ChainIndex(cpu, rec.J(), h', |h'| - 1);
    forall i | 1 <= i < |rec.checkpoints|
            && rec.checkpoints[i].position.attemptedSteps <= end.pos.attemptedSteps
      ensures Saved(cpu, h', rec.checkpoints[i])
      ensures h'[Index(rec.checkpoints[i].position)].pos == rec.checkpoints[i].position
    {
      var cp := rec.checkpoints[i];
      assert CheckpointIndexed(rec, cp);
      if cp.position.attemptedSteps <= h[|h| - 1].pos.attemptedSteps {
        assert Saved(cpu, h, cp);
        assert h'[Index(cp.position)] == h[Index(cp.position)];
      } else {
        assert cp.position == end.pos;
      }
    }
  }

  lemma SavedStill(cpu: Cpu, h: seq<Snap>, h': seq<Snap>, cps: seq<Checkpoint>)
    requires 0 < |h| && Prefix(h, h') && SavedSoFar(cpu, h, cps)
    requires h[|h| - 1].pos.attemptedSteps == h'[|h'| - 1].pos.attemptedSteps
    ensures SavedSoFar(cpu, h', cps)
  {
    forall i | 1 <= i < |cps|
            && cps[i].position.attemptedSteps <= h'[|h'| - 1].pos.attemptedSteps
      ensures Saved(cpu, h', cps[i]) && h'[Index(cps[i].position)].pos == cps[i].position
    {
      assert Saved(cpu, h, cps[i]);
      assert h'[Index(cps[i].position)] == h[Index(cps[i].position)];
    }
  }

  /** What the validating replay accepts from the end of a chain on, without hiding a failure, extends that
      chain up to the last attempt. */
  lemma {:induction false} ValidateRebuilds(cpu: Cpu, rec: Recording, h: seq<Snap>)
    returns (h': seq<Snap>)
    requires Shaped(rec) && Chain(cpu, rec.J(), h) && SavedSoFar(cpu, h, rec.checkpoints)
    requires !HidesFrom(cpu, rec.J(), h[|h| - 1])
    requires Validate(cpu, rec, Place(h[|h| - 1], None)).Some?
    ensures Chain(cpu, rec.J(), h') && Prefix(h, h') && SavedSoFar(cpu, h', rec.checkpoints)
    ensures |rec.attempts| <= h'[|h'| - 1].pos.attemptedSteps
    ensures Validate(cpu, rec, Place(h[|h| - 1], None)) == Some(Place(h'[|h'| - 1], None))
    decreases |rec.attempts| - h[|h| - 1].pos.attemptedSteps
  {
    var a := h[|h| - 1];
    if a.pos.attemptedSteps >= |rec.attempts| {
      h' := h;
    } else {
      RedoNextIs(cpu, rec.J(), false, a);
      var mid := AttemptRebuilds(cpu, rec.J(), h);
      SavedOneMore(cpu, rec, h, mid);
      h' := ValidateRebuilds(cpu, rec, mid);
      assert h'[..|h|] == h'[..|mid|][..|h|] == h;
    }
  }

  lemma NothingSavedYet(cpu: Cpu, rec: Recording, h: seq<Snap>)
    requires Shaped(rec) && |h| == 1 && h[0].pos.attemptedSteps == 0
    ensures SavedSoFar(cpu, h, rec.checkpoints)
  {
    forall i | 0 < i < |rec.checkpoints|
      ensures 0 < rec.checkpoints[i].position.attemptedSteps
    {
      PositiveAttempt(rec, i);
    }
  }

  /** With ordered checkpoints the start is reached from checkpoint 0 without replaying anything. */
  lemma SeekStart(cpu: Cpu, rec: Recording)
    requires Shaped(rec) && cpu.load(rec.checkpoints[0].state).Some?
    ensures RedoSeek(cpu, rec.J(), rec.checkpoints, rec.checkpoints[0].position, None)
         == Some(Place(Origin(cpu, rec), None))
  {
    forall i | 0 < i < |rec.checkpoints|
      ensures 0 < rec.checkpoints[i].position.attemptedSteps
    {
      PositiveAttempt(rec, i);
    }
  }

  lemma {:induction false} PositiveAttempt(rec: Recording, i: nat)
    requires Shaped(rec) && 0 < i < |rec.checkpoints|
    ensures rec.checkpoints[i - 1].position.attemptedSteps < rec.checkpoints[i].position.attemptedSteps
    ensures 0 < rec.checkpoints[i].position.attemptedSteps
  {
    assert rec.checkpoints[i - 1].position.attemptedSteps < rec.checkpoints[i].position.attemptedSteps;
  }

  lemma {:induction false} OrderedCheckpoints(rec: Recording, i: nat, k: nat)
    requires Shaped(rec) && i < k < |rec.checkpoints|
    ensures rec.checkpoints[i].position.attemptedSteps < rec.checkpoints[k].position.attemptedSteps
    decreases k
  {
    PositiveAttempt(rec, k);
    if i < k - 1 {
      OrderedCheckpoints(rec, i, k - 1);
    }
  }

  /** What the validating replay established makes the store good. */
  lemma StoreIsGood(cpu: Cpu, rec: Recording, h: seq<Snap>)
    requires cpu.Lawful() && Shaped(rec) && Recorded(cpu, rec.J(), h)
    requires SavedSoFar(cpu, h, rec.checkpoints)
    requires h[0].pos == rec.checkpoints[0].position
    requires cpu.load(rec.checkpoints[0].state) == Some(h[0].state)
    ensures Stored(cpu, rec.J(), h, rec.checkpoints, rec.options.maxCheckpoints)
  {
    var cps := rec.checkpoints;
    ChainIndex(cpu, rec.J(), h, |h| - 1);
    forall i, k | 0 <= i < k < |cps|
      ensures Ats(cps)[i] < Ats(cps)[k]
    {
      OrderedCheckpoints(rec, i, k);
    }
    forall i | 0 <= i < |cps|
      ensures Taken(cpu, rec.J(), h, cps[i])
      ensures 1 <= i ==> Saved(cpu, h, cps[i])
    {
      assert CheckpointIndexed(rec, cps[i]);
      if 1 <= i {
        assert Saved(cpu, h, cps[i]);
        ChainSound(cpu, rec.J(), h, Index(cps[i].position));
        assert cpu.Reloads(h[Index(cps[i].position)].state);
      }
    }
  }

  lemma AcceptedIsFaithful(cpu: Cpu, rec: Recording) returns (h: seq<Snap>)
    requires cpu.Lawful() && Accepts(cpu, rec) && !HidesFailure(cpu, rec)
    ensures Faithful(cpu, rec, h)
  {
    hide AttemptIndexed, CheckpointIndexed, ValidPosition, RedoSeek, HidesFrom, Validate, PerformUntil;
    var j := rec.J();
    assert cpu.LoadsSound(rec.checkpoints[0].state);
    NothingSavedYet(cpu, rec, [Origin(cpu, rec)]);
    var mid := ValidateRebuilds(cpu, rec, [Origin(cpu, rec)]);
    h := ActionsRebuild(cpu, j, mid, |rec.actions|);
    SavedStill(cpu, mid, h, rec.checkpoints);
    ChainIndex(cpu, j, mid, |mid| - 1);
    ChainIndex(cpu, j, h, |h| - 1);
    assert h[0] == h[..|mid|][0] == mid[0] == mid[..1][0];
    StoreIsGood(cpu, rec, h);
    ValidPositionIff(cpu, j, h, rec.position);
  }

  /** Unless the replay of the recording hides a bus failure, the tests of an import accept exactly the
      recordings that describe a run; a recording whose replay does describes none. And a recording that
      describes a run says what the machine does: every bus record is the access that it makes. */
  lemma AcceptsIff(cpu: Cpu, rec: Recording)
    requires cpu.Lawful()
    ensures !HidesFailure(cpu, rec) ==> (Accepts(cpu, rec) <==> exists h :: Faithful(cpu, rec, h))
    ensures HidesFailure(cpu, rec) ==> !exists h :: Faithful(cpu, rec, h)
    ensures forall h :: Faithful(cpu, rec, h) ==> SaysTrue(cpu, rec.J(), h)
  {
    hide SaysTrue;
    forall h | Faithful(cpu, rec, h)
      ensures SaysTrue(cpu, rec.J(), h)
    {
      RunSaysTrue(cpu, rec.J(), h);
    }
    if h :| Faithful(cpu, rec, h) {
      FaithfulIsAccepted(cpu, rec, h);
    }
    if Accepts(cpu, rec) && !HidesFailure(cpu, rec) {
      var h := AcceptedIsFaithful(cpu, rec);
    }
  }

  // ------------------------------------------------------------- an accepted recording of no run

  /** From any step that, played back, returns normally with a bus error pending: the recording of that one
      step passes every test of an import, yet describes no run. */
  lemma HiddenFailureAccepted(cpu: Cpu, st: MachineState, records: seq<BusRecord>) returns (rec: Recording)
    requires cpu.Lawful() && cpu.Sound(st)
    requires var run := RunPlay(cpu.step(st.core), records, 0, None);
             run.ret.Hidden? && run.cursor == |records|
    ensures var run := RunPlay(cpu.step(st.core), records, 0, None);
            && rec.records == records && rec.actions == []
            && rec.attempts == [AttemptRecord(Completed(run.ret.hiddenCycles),
                                              Position(1, run.core.cycleCount, 0, |records|))]
    ensures Accepts(cpu, rec) && HidesFailure(cpu, rec)
    ensures forall h :: !Faithful(cpu, rec, h)
  {
    var run := RunPlay(cpu.step(st.core), records, 0, None);
    var start := Position(0, st.core.cycleCount, 0, 0);
    var end := Position(1, run.core.cycleCount, 0, |records|);
    rec := Recording("z180-replay", 1, Options(1, 2), start, records, [],
                     [AttemptRecord(Completed(run.ret.hiddenCycles), end)], [Checkpoint(start, cpu.save(st))]);
    assert cpu.Reloads(st) && cpu.StepsGrounded(st.core);
    PlayStaysGrounded(cpu, cpu.step(st.core), st.core.cycleCount, records, 0, None);
    assert AttemptIndexed(rec, 0) && CheckpointIndexed(rec, rec.checkpoints[0]);
    var (j, a) := (rec.J(), Snap(start, st));
    var q := Place(AfterStep(cpu, a, run), Some(run.ret.pending));
    assert RedoNext(cpu, j, false, Place(a, None)) == Redo(cpu, j, Place(a, None)) == Some(q);
    assert Validate(cpu, rec, Place(a, None)) == Validate(cpu, rec, q) == Some(q);
    assert RedoTo(cpu, j, Place(a, q.pending), start) == Some(Place(a, q.pending));
    AcceptsIff(cpu, rec);
  }

  /** So for every live step that hides a bus failure: `rec` is what a timeline records of that step. */
  lemma HiddenStepAccepted(cpu: Cpu, st: MachineState, host: Host, h: HostState) returns (rec: Recording)
    requires cpu.Lawful() && cpu.Sound(st)
    requires RunLive(cpu.step(st.core), host, h, None).ret.Hidden?
    ensures rec.J() == LiveJournal(cpu, Journal([], [], []), Snap(Position(0, st.core.cycleCount, 0, 0), st),
                                   RunLive(cpu.step(st.core), host, h, None))
    ensures Accepts(cpu, rec) && HidesFailure(cpu, rec)
    ensures forall h :: !Faithful(cpu, rec, h)
  {
    hide Accepts, HidesFailure, Faithful;
    var run := RunLive(cpu.step(st.core), host, h, None);
    FailedCallIsLast(cpu.step(st.core), host, h);
    PlaybackRepeatsLive(cpu.step(st.core), host, h, [], []);
    assert [] + run.records + [] == run.records;
    rec := HiddenFailureAccepted(cpu, st, run.records);
  }

  /** And so for every machine with the control path of `try_step`, in a state where it comes to an instruction
      whose TRAP fails to push. */
  lemma FailedTrapAccepted(cpu: Cpu, p: Parts, st: MachineState, host: Host, h: HostState)
    returns (rec: Recording)
    requires cpu.Lawful() && p.Lawful() && cpu.Sound(st) && cpu.step(st.core) == TryStep(p, st.core)
    requires var start := InstructionStart(p, st.core, host, h);
             start.Some? && TrapFails(p, start.value, host, DmaRun(p, st.core, host, h).host)
    ensures Accepts(cpu, rec) && HidesFailure(cpu, rec)
    ensures forall h :: !Faithful(cpu, rec, h)
  {
    FailedStep(p, st.core, host, h);
    rec := HiddenStepAccepted(cpu, st, host, h);
  }

  /** A machine whose every opcode traps, with the save states of another. */
  function TrappingCpu(codec: Cpu): Cpu {
    codec.(step := c => TryStep(TrappingParts(), c))
  }

  /** Nothing in the codec depends on the clock. */
  ghost predicate ClockFree(cpu: Cpu) {
    forall c: CoreState, n: nat :: cpu.loadable(c) ==> cpu.loadable(c.(cycleCount := n))
  }

  lemma TrappingIsGrounded(cpu: Cpu, c: CoreState)
    requires cpu.loadable(c) && ClockFree(cpu)
    ensures cpu.Grounded(TryStep(TrappingParts(), c), c.cycleCount)
  {
    var done := Finish(c.(cycleCount := c.cycleCount + 6), 6);
    var second := Call(MemWrite(0xFFFE, 0), [done], done);
    var trapped := IfFailed(c, Call(MemWrite(0xFFFF, 0), [second], second));
    assert cpu.loadable(c.(cycleCount := c.cycleCount + 6));
    assert cpu.Grounded(done, c.cycleCount) && cpu.Grounded(second, c.cycleCount);
    assert cpu.Grounded(trapped, c.cycleCount);
    TrappingStep(c);
    assert cpu.Grounded(Call(MemRead(0), [trapped], trapped), c.cycleCount);
  }

  lemma TrappingCpuIsLawful(codec: Cpu)
    requires codec.Lawful() && ClockFree(codec)
    ensures TrappingCpu(codec).Lawful()
  {
    var cpu := TrappingCpu(codec);
    forall st
      ensures cpu.Reloads(st)
    {
      assert codec.Reloads(st);
    }
    forall data
      ensures cpu.LoadsSound(data)
    {
      assert codec.LoadsSound(data);
    }
    forall c
      ensures cpu.StepsGrounded(c)
    {
      if codec.loadable(c) {
        TrappingIsGrounded(cpu, c);
      }
    }
    forall c, s
      ensures cpu.StimulusKeeps(c, s)
    {
      assert codec.StimulusKeeps(c, s);
    }
    forall c, o
      ensures cpu.DrainKeeps(c, o)
    {
      assert codec.DrainKeeps(c, o);
    }
  }

  /** Such a machine, on a host whose memory takes no writes: its first step is recorded, and the recording is
      accepted although it describes no run. */
  lemma TrappingAccepted(codec: Cpu, st: MachineState, h: HostState, e: HostError) returns (rec: Recording)
    requires codec.Lawful() && ClockFree(codec) && codec.Sound(st)
    ensures TrappingCpu(codec).Lawful()
    ensures rec.J() == LiveJournal(TrappingCpu(codec), Journal([], [], []),
                                   Snap(Position(0, st.core.cycleCount, 0, 0), st),
                                   RunLive(TryStep(TrappingParts(), st.core), ReadOnlyHost(e), h, None))
    ensures Accepts(TrappingCpu(codec), rec) && HidesFailure(TrappingCpu(codec), rec)
    ensures forall h :: !Faithful(TrappingCpu(codec), rec, h)
  {
    var cpu := TrappingCpu(codec);
    TrappingCpuIsLawful(codec);
    TrapHidesFailure(st.core, h, e);
    rec := HiddenStepAccepted(cpu, st, ReadOnlyHost(e), h);
  }

  /** A recording describes at most one run. */
  lemma FaithfulOnce(cpu: Cpu, rec: Recording, a: seq<Snap>, b: seq<Snap>)
    requires Faithful(cpu, rec, a) && Faithful(cpu, rec, b)
    ensures a == b
  {
    FaithfulLoads(cpu, rec, a);
    FaithfulLoads(cpu, rec, b);
    forall n | 0 <= n < |a|
      ensures a[n] == b[n]
    {
      ChainIsUnique(cpu, rec.J(), a, b, n);
    }
  }

  // ------------------------------------------------------------------------------- export and import

  datatype ExportError = NotStarted

  /** The recording of a started timeline describes exactly its run. */
  method ExportRecording(t: Timeline) returns (r: Result<Recording, ExportError>)
    requires t.Valid()
    ensures r.Success? <==> t.mode != Setup
    ensures r.Success? ==> Faithful(t.cpu, r.value, t.history)
                           && r.value.J() == t.J() && r.value.position == t.position
                           && r.value.options == t.options && r.value.checkpoints == t.checkpoints
  {
    if t.mode == Setup {
      return Failure(NotStarted);
    }
    r := Success(Recording("z180-replay", 1, t.options, t.position, t.bus.records, t.actions,
                           t.attempts, t.checkpoints));
  }

  datatype ImportError =
    | UnsupportedFormat
    | InvalidCheckpointCount
    | InvalidOptions
    | MissingInitialCheckpoint
    | InvalidAttemptIndex
    | InvalidActionIndex
    | UnorderedCheckpoints
    | InvalidCheckpointPosition
    | InvalidCheckpointState
    | InvalidSavedPosition
    | InvalidInitialState
    | InitialCycleDiffers
    | DivergesDuringValidation
    | CheckpointDisagrees
    | FinalActionsDiverge
    | UnusedBusRecords
    | SavedPositionDiverges

  /** The attempt loop of the static checks. */
  method CheckAttempts(rec: Recording) returns (ok: bool)
    requires 0 < |rec.checkpoints|
    ensures ok <==> forall i :: 0 <= i < |rec.attempts| ==> AttemptIndexed(rec, i)
  {
    var previous := rec.checkpoints[0].position;
    var i := 0;
    while i < |rec.attempts|
      invariant 0 <= i <= |rec.attempts|
      invariant previous == EndOf(rec.J(), rec.checkpoints[0].position, i)
      invariant forall k :: 0 <= k < i ==> AttemptIndexed(rec, k)
    {
      var end := rec.attempts[i].end;
      if end.attemptedSteps != i + 1
         || end.actions < previous.actions || end.actions > |rec.actions|
         || end.busRecords < previous.busRecords || end.busRecords > |rec.records|
         || end.cycle < previous.cycle
      {
        assert !AttemptIndexed(rec, i);
        return false;
      }
      previous := end;
      i := i + 1;
    }
    ok := true;
  }

  /** The checks that need no machine. */
  method CheckShape(rec: Recording) returns (r: Result<(), ImportError>)
    ensures r.Success? <==> Shaped(rec)
  {
    if rec.format != "z180-replay" || rec.version != 1 {
      return Failure(UnsupportedFormat);
    }
    if |rec.checkpoints| == 0 || |rec.checkpoints| > rec.options.maxCheckpoints {
      return Failure(InvalidCheckpointCount);
    }
    if !rec.options.Valid() {
      return Failure(InvalidOptions);
    }
    var start := rec.checkpoints[0].position;
    if start.attemptedSteps != 0 || start.actions != 0 || start.busRecords != 0 {
      return Failure(MissingInitialCheckpoint);
    }
    var indexed := CheckAttempts(rec);
    if !indexed {
      return Failure(InvalidAttemptIndex);
    }
    if (exists i :: 0 < i < |rec.actions|
                 && rec.actions[i - 1].attemptedStep > rec.actions[i].attemptedStep)
       || (|rec.actions| > 0 && rec.actions[|rec.actions| - 1].attemptedStep > |rec.attempts|)
    {
      return Failure(InvalidActionIndex);
    }
    if exists i :: 0 < i < |rec.checkpoints|
                && rec.checkpoints[i - 1].position.attemptedSteps
                   >= rec.checkpoints[i].position.attemptedSteps
    {
      return Failure(UnorderedCheckpoints);
    }
    if exists i :: 0 <= i < |rec.checkpoints| && !CheckpointIndexed(rec, rec.checkpoints[i]) {
      return Failure(InvalidCheckpointPosition);
    }
    if !ValidPosition(rec.J(), start, rec.position) {
      return Failure(InvalidSavedPosition);
    }
    r := Success(());
  }

  /** The timeline an import is filling in. */
  ghost predicate Loading(t: Timeline, rec: Recording)
    reads t, t.bus
  {
    && t.Wired() && t.options == rec.options && t.J() == rec.J() && t.checkpoints == rec.checkpoints
    && t.mode == t.bus.mode == Playback && t.bus.cursor == t.position.busRecords
  }

  /** One attempt of the validating replay. */
  method ReplayAndCompare(t: Timeline, rec: Recording) returns (r: Result<(), ImportError>)
    requires Loading(t, rec) && t.position.attemptedSteps < |rec.attempts|
    modifies t`position, t.machine, t.bus
    ensures t.OnlyReplayed()
    ensures var next := RedoNext(t.cpu, rec.J(), false, old(t.Here()));
            && (r.Success? <==> next.Some? && !Contradicted(t.cpu, rec, next.value.at))
            && (r.Success? ==> Loading(t, rec) && t.Here() == next.value)
  {
    var outcome := t.ReplayNextAttempt(false);
    if outcome.Failure? {
      return Failure(DivergesDuringValidation);
    }
    var state := t.machine.SaveState();
    if exists i :: 0 <= i < |t.checkpoints| && t.checkpoints[i].position == t.position
                && t.checkpoints[i].state != state
    {
      return Failure(CheckpointDisagrees);
    }
    r := Success(());
  }

  /** The validating replay: from the start through every attempt to the last action. */
  method ReplayEverything(t: Timeline, rec: Recording) returns (r: Result<(), ImportError>)
    requires Loading(t, rec)
    modifies t`position, t.machine, t.bus
    ensures t.OnlyReplayed()
    ensures var end := Validate(t.cpu, rec, old(t.Here()));
            && (r.Success? <==>
                  && end.Some?
                  && PerformUntil(t.cpu, rec.J(), false, end.value.at, |rec.actions|).Some?
                  && end.value.at.pos.busRecords == |rec.records|)
            && (r.Success? ==> Loading(t, rec) && t.machine.busError == end.value.pending)
  {
    while t.position.attemptedSteps < |t.attempts|
      invariant t.OnlyReplayed() && Loading(t, rec)
      invariant Validate(t.cpu, rec, t.Here()) == Validate(t.cpu, rec, old(t.Here()))
      decreases |t.attempts| - t.position.attemptedSteps
    {
      r := ReplayAndCompare(t, rec);
      if r.Failure? {
        return;
      }
    }
    var replayed := t.ReplayActionsUntil(|t.actions|, false);
    if replayed.Failure? {
      return Failure(FinalActionsDiverge);
    }
    if t.bus.cursor != |t.bus.records| {
      return Failure(UnusedBusRecords);
    }
    r := Success(());
  }

  /** Load every checkpoint once; any that does not load rejects the recording. */
  method LoadEvery(t: Timeline) returns (ok: bool)
    requires t.Wired()
    modifies t.machine`core, t.machine`debug
    ensures ok <==> forall i :: 0 <= i < |t.checkpoints| ==> t.cpu.load(t.checkpoints[i].state).Some?
  {
    var i := 0;
    while i < |t.checkpoints|
      invariant 0 <= i <= |t.checkpoints|
      invariant forall k :: 0 <= k < i ==> t.cpu.load(t.checkpoints[k].state).Some?
    {
      var loaded := t.machine.LoadState(t.checkpoints[i].state);
      if !loaded {
        return false;
      }
      i := i + 1;
    }
    ok := true;
  }

  /** The first half of an import: check the fields, load the checkpoints and stand at the start. */
  method OpenRecording(cpu: Cpu, rec: Recording, blank: MachineState, host: Host, inner: HostState)
    returns (r: Result<Timeline, ImportError>)
    requires cpu.Lawful()
    ensures r.Success? <==> Shaped(rec) && Loads(cpu, rec)
                            && Origin(cpu, rec).state.core.cycleCount == Origin(cpu, rec).pos.cycle
    ensures r.Success? ==>
              var t := r.value;
              && fresh(t) && fresh(t.machine) && fresh(t.bus)
              && t.bus.liveCalls == 0 && t.bus.inner == inner && t.cpu == cpu
              && Loading(t, rec) && t.Here() == Place(Origin(cpu, rec), None)
  {
    var shape := CheckShape(rec);
    if shape.Failure? {
      return Failure(shape.error);
    }
    var t := new Timeline(cpu, blank, host, inner, rec.options);
    t.actions, t.attempts, t.checkpoints := rec.actions, rec.attempts, rec.checkpoints;
    t.bus.records := rec.records;
    var loaded := LoadEvery(t);
    if !loaded {
      return Failure(InvalidCheckpointState);
    }
    var start := rec.checkpoints[0].position;
    SeekStart(cpu, rec);
    var sought, executed := t.SeekInternal(start);
    if sought.Failure? {
      return Failure(InvalidInitialState);
    }
    if t.machine.core.cycleCount != start.cycle {
      return Failure(InitialCycleDiffers);
    }
    r := Success(t);
  }

  /** Import into a fresh timeline in playback mode. Unless the replay of the recording hides a bus
      failure, it is accepted exactly when it describes a run, and the timeline then holds that run.
      The live host is never asked for anything. */
  method ImportRecording(cpu: Cpu, rec: Recording, blank: MachineState, host: Host, inner: HostState)
    returns (r: Result<Timeline, ImportError>)
    requires cpu.Lawful()
    ensures r.Success? <==> Accepts(cpu, rec)
    ensures !HidesFailure(cpu, rec) ==> (r.Success? <==> exists h :: Faithful(cpu, rec, h))
    ensures r.Success? ==>
              var t := r.value;
              && fresh(t) && fresh(t.machine) && fresh(t.bus)
              && t.bus.liveCalls == 0 && t.bus.inner == inner && t.cpu == cpu
              && Loading(t, rec) && t.position == rec.position
    ensures r.Success? && !HidesFailure(cpu, rec) ==>
              && r.value.Valid() && Faithful(cpu, rec, r.value.history)
              && SaysTrue(cpu, rec.J(), r.value.history)
  {
    hide Shaped, Loads, HidesFailure, SaysTrue, Validate, PerformUntil, RedoSeek, Recorded, Stored;
    AcceptsIff(cpu, rec);
    r := OpenRecording(cpu, rec, blank, host, inner);
    if r.Failure? {
      return;
    }
    var t := r.value;
    var replayed := ReplayEverything(t, rec);
    if replayed.Failure? {
      return Failure(replayed.error);
    }
    var sought, executed := t.SeekInternal(rec.position);
    if sought.Failure? {
      return Failure(SavedPositionDiverges);
    }
    if !HidesFailure(cpu, rec) {
      ghost var h := AcceptedIsFaithful(cpu, rec);
      FaithfulArrives(cpu, rec, h);
      t.history := h;
    }
  }

  /** The validating replay of a run leaves no error pending, and the seek after it arrives at the saved
      position of that run. */
  lemma FaithfulArrives(cpu: Cpu, rec: Recording, h: seq<Snap>)
    requires cpu.Lawful() && Faithful(cpu, rec, h)
    ensures Loads(cpu, rec) && 0 < |rec.checkpoints|
    ensures var end := Validate(cpu, rec, Place(Origin(cpu, rec), None));
            end.Some? && end.value.pending == None
    ensures RedoSeek(cpu, rec.J(), rec.checkpoints, rec.position, None)
         == Some(Place(h[Index(rec.position)], None))
  {
    FaithfulLoads(cpu, rec, h);
    var k := FaithfulValidates(cpu, rec, h, 0);
    SeekFacts(cpu, rec.J(), h, rec.checkpoints, rec.options, rec.position);
  }

  /** Export then import: the recording of any started timeline is accepted, and the new timeline stands
      in playback at the same position and machine state, with the same run behind it. */
  method ExportThenImport(t: Timeline, blank: MachineState, host: Host, inner: HostState)
    returns (copy: Timeline)
    requires t.Valid() && t.mode != Setup
    ensures copy.Valid() && copy.mode == Playback && copy.At() == t.At()
    ensures copy.history == t.history && copy.J() == t.J() && copy.checkpoints == t.checkpoints
    ensures copy.bus.liveCalls == 0
  {
    var exported := ExportRecording(t);
    var rec := exported.value;
    FaithfulIsAccepted(t.cpu, rec, t.history);
    var imported := ImportRecording(t.cpu, rec, blank, host, inner);
    copy := imported.value;
    FaithfulOnce(t.cpu, rec, copy.history, t.history);
  }
}
