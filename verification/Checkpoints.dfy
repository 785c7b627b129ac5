/** Checkpoints and seeking (seek_internal in timeline.rs), as functions of the journal. */
module Checkpoints {
  import opened Basics
  import opened Machine
  import opened Transcript
  import opened Journals
  import opened Thinning

  datatype Checkpoint = Checkpoint(position: Position, state: seq<byte>)

  function Ats(cps: seq<Checkpoint>): (ats: seq<nat>)
    ensures |ats| == |cps|
  {
    seq(|cps|, i requires 0 <= i < |cps| => cps[i].position.attemptedSteps)
  }

  predicate Usable(cp: Checkpoint, target: Position) {
    cp.position.attemptedSteps <= target.attemptedSteps && cp.position.actions <= target.actions
  }

  /** The newest usable checkpoint, if any: the search runs from the back. */
  function Choose(cps: seq<Checkpoint>, target: Position): (r: Option<nat>)
    ensures r.Some? ==>
              && r.value < |cps| && Usable(cps[r.value], target)
              && forall i :: r.value < i < |cps| ==> !Usable(cps[i], target)
    ensures r.None? ==> forall i :: 0 <= i < |cps| ==> !Usable(cps[i], target)
    decreases |cps|
  {
    if cps == [] then None
    else if Usable(cps[|cps| - 1], target) then Some(|cps| - 1)
    else Choose(cps[..|cps| - 1], target)
  }

  /** Where `seek_internal` arrives if no replayed step hides a bus failure. */
  function SeekTo(cpu: Cpu, j: Journal, cps: seq<Checkpoint>, target: Position): (r: Option<Snap>)
    ensures r.Some? ==> r.value.pos == target
  {
    match Choose(cps, target)
    case None => None
    case Some(i) =>
      match cpu.load(cps[i].state)
      case None => None
      case Some(state) =>
        if cps[i].position.busRecords > |j.records| then None
        else ReplayTo(cpu, j, Snap(cps[i].position, state), target)
  }

  /** `seek_internal` on a machine with or without a pending bus error; loading a state keeps the error.
      `None` is any of its errors. */
  function RedoSeek(cpu: Cpu, j: Journal, cps: seq<Checkpoint>, target: Position,
                    pending: Option<BusError>): (r: Option<Place>)
    ensures r.Some? ==> r.value.at.pos == target
  {
    match Choose(cps, target)
    case None => None
    case Some(i) =>
      match cpu.load(cps[i].state)
      case None => None
      case Some(state) =>
        if cps[i].position.busRecords > |j.records| then None
        else RedoTo(cpu, j, Place(Snap(cps[i].position, state), pending), target)
  }

  lemma RedoSeekIs(cpu: Cpu, j: Journal, cps: seq<Checkpoint>, target: Position)
    requires SeekTo(cpu, j, cps, target).Some?
    ensures RedoSeek(cpu, j, cps, target, None)
         == Some(Place(SeekTo(cpu, j, cps, target).value, None))
  {
    var cp := cps[Choose(cps, target).value];
    RedoToIs(cpu, j, Snap(cp.position, cpu.load(cp.state).value), target);
  }

  /** A checkpoint taken right after the attempt it names, holding the state the run had there. */
  ghost predicate Taken(cpu: Cpu, j: Journal, h: seq<Snap>, cp: Checkpoint)
    requires 0 < |h|
  {
    && cp.position.attemptedSteps <= |j.attempts|
    && cp.position == EndOf(j, h[0].pos, cp.position.attemptedSteps)
    && Index(cp.position) < |h|
    && h[Index(cp.position)].pos == cp.position
    && cpu.load(cp.state) == Some(h[Index(cp.position)].state)
  }

  /** The checkpoint store of a recorded run: checkpoint 0 is the start, the others were saved from the
      run, in order, and there are at most `capacity` of them. */
  ghost predicate Stored(cpu: Cpu, j: Journal, h: seq<Snap>, cps: seq<Checkpoint>, capacity: nat)
    requires 0 < |h|
  {
    && 0 < |cps| <= capacity
    && cps[0].position == h[0].pos
    && Increasing(Ats(cps))
    && (forall i {:trigger Taken(cpu, j, h, cps[i])} :: 0 <= i < |cps| ==> Taken(cpu, j, h, cps[i]))
    && (forall i {:trigger Saved(cpu, h, cps[i])} :: 1 <= i < |cps| ==> Saved(cpu, h, cps[i]))
  }

  /** The checkpoint's bytes are the save state of the entry it names. */
  ghost predicate Saved(cpu: Cpu, h: seq<Snap>, cp: Checkpoint) {
    Index(cp.position) < |h| && cp.state == cpu.save(h[Index(cp.position)].state)
  }

  /** A checkpoint of the run is usable for a position of the run exactly when its attempt count is. */
  lemma UsableByAttempts(cpu: Cpu, j: Journal, h: seq<Snap>, cp: Checkpoint, target: Position)
    requires Recorded(cpu, j, h) && Taken(cpu, j, h, cp)
    requires Index(target) < |h| && h[Index(target)].pos == target
    ensures Usable(cp, target) <==> cp.position.attemptedSteps <= target.attemptedSteps
  {
    var (i, t) := (Index(cp.position), Index(target));
    SameBoundary(cpu, j, h, t);
    if i <= t {
      ChainGrows(cpu, j, h, i, t);
    } else {
      ChainGrows(cpu, j, h, t, i);
    }
  }

  /** Whichever checkpoints are retained, seeking any valid position arrives at the entry the run had
      there, re-executing fewer attempts than separate the chosen checkpoint from the next one. */
  lemma SeekArrives(cpu: Cpu, j: Journal, h: seq<Snap>, cps: seq<Checkpoint>, capacity: nat,
                    target: Position)
    requires cpu.Lawful() && Recorded(cpu, j, h) && Stored(cpu, j, h, cps, capacity)
    requires ValidPosition(j, h[0].pos, target)
    ensures Index(target) < |h| && h[Index(target)].pos == target
    ensures SeekTo(cpu, j, cps, target) == Some(h[Index(target)])
    ensures var i := Choose(cps, target);
            && i.Some?
            && Ats(cps)[i.value] <= target.attemptedSteps
            && (i.value + 1 < |cps| ==> target.attemptedSteps < Ats(cps)[i.value + 1])
  {
    ValidPositionIff(cpu, j, h, target);
    forall i | 0 <= i < |cps|
      ensures Usable(cps[i], target) <==> Ats(cps)[i] <= target.attemptedSteps
    {
      assert Taken(cpu, j, h, cps[i]);
      UsableByAttempts(cpu, j, h, cps[i], target);
    }
    assert Usable(cps[0], target);
    assert Taken(cpu, j, h, cps[Choose(cps, target).value]);
    ChosenArrives(cpu, j, h, cps[Choose(cps, target).value], target);
  }

  lemma ChosenArrives(cpu: Cpu, j: Journal, h: seq<Snap>, cp: Checkpoint, target: Position)
    requires cpu.Lawful() && Recorded(cpu, j, h) && Taken(cpu, j, h, cp)
    requires ValidPosition(j, h[0].pos, target) && Usable(cp, target)
    ensures cp.position.busRecords <= |j.records| && Index(target) < |h|
    ensures ReplayTo(cpu, j, Snap(cp.position, cpu.load(cp.state).value), target)
         == Some(h[Index(target)])
  {
    ChainSound(cpu, j, h, Index(cp.position));
    ReplayFollows(cpu, j, h, Index(cp.position), target);
  }

  lemma EvictKeeps(cpu: Cpu, j: Journal, h: seq<Snap>, cps: seq<Checkpoint>, capacity: nat, e: nat)
    requires 0 < |h| && Stored(cpu, j, h, cps, capacity) && 1 <= e < |cps|
    ensures Stored(cpu, j, h, Without(cps, e), capacity)
  {
    var kept := Without(cps, e);
    forall i | 0 <= i < |kept|
      ensures Taken(cpu, j, h, kept[i])
      ensures 1 <= i ==> Saved(cpu, h, kept[i])
    {
      var i' := if i < e then i else i + 1;
      assert kept[i] == cps[i'];
      assert Taken(cpu, j, h, cps[i']);
      assert 1 <= i ==> Saved(cpu, h, cps[i']);
    }
    forall i, k | 0 <= i < k < |kept|
      ensures Ats(kept)[i] < Ats(kept)[k]
    {
      assert Ats(cps)[if i < e then i else i + 1] < Ats(cps)[if k < e then k else k + 1];
    }
  }

  predicate Newer(cps: seq<Checkpoint>, cp: Checkpoint) {
    forall i :: 0 <= i < |cps| ==> cps[i].position.attemptedSteps < cp.position.attemptedSteps
  }

  /** Another checkpoint taken at the end of the run, right after an attempt. */
  lemma AppendKeeps(cpu: Cpu, j: Journal, h: seq<Snap>, cps: seq<Checkpoint>, capacity: nat,
                    cp: Checkpoint)
    requires cpu.Lawful() && Recorded(cpu, j, h) && Stored(cpu, j, h, cps, capacity)
    requires |cps| < capacity
    requires Newer(cps, cp)
    requires cp.position == h[|h| - 1].pos == EndOf(j, h[0].pos, |j.attempts|)
    requires cp.state == cpu.save(h[|h| - 1].state)
    ensures Stored(cpu, j, h, cps + [cp], capacity)
  {
    ChainIndex(cpu, j, h, |h| - 1);
    ChainSound(cpu, j, h, |h| - 1);
    assert cpu.Reloads(h[|h| - 1].state);
    var next := cps + [cp];
    forall i, k | 0 <= i < k < |next|
      ensures Ats(next)[i] < Ats(next)[k]
    {
      if k < |cps| {
        assert Ats(cps)[i] < Ats(cps)[k];
      }
    }
    forall i | 0 <= i < |next|
      ensures Taken(cpu, j, h, next[i])
      ensures 1 <= i ==> Saved(cpu, h, next[i])
    {
      assert i < |cps| ==> next[i] == cps[i] && Taken(cpu, j, h, cps[i]);
      assert 1 <= i < |cps| ==> Saved(cpu, h, cps[i]);
    }
  }

  /** What `store_checkpoint` does to the store. */
  ghost predicate StoredNext(cps: seq<Checkpoint>, capacity: nat, cp: Checkpoint,
                             next: seq<Checkpoint>)
  {
    if |cps| == capacity then
      exists e: nat :: Evictable(Ats(cps), cp.position.attemptedSteps, e)
               && next == Without(cps, e) + [cp]
    else next == cps + [cp]
  }

  lemma StoreKeeps(cpu: Cpu, j: Journal, h: seq<Snap>, cps: seq<Checkpoint>, capacity: nat,
                   cp: Checkpoint, next: seq<Checkpoint>)
    requires cpu.Lawful() && Recorded(cpu, j, h) && Stored(cpu, j, h, cps, capacity) && 2 <= capacity
    requires Newer(cps, cp)
    requires cp.position == h[|h| - 1].pos == EndOf(j, h[0].pos, |j.attempts|)
    requires cp.state == cpu.save(h[|h| - 1].state)
    requires StoredNext(cps, capacity, cp, next)
    ensures Stored(cpu, j, h, next, capacity)
  {
    if |cps| == capacity {
      var e: nat :| Evictable(Ats(cps), cp.position.attemptedSteps, e) && next == Without(cps, e) + [cp];
      EvictKeeps(cpu, j, h, cps, capacity, e);
      AppendKeeps(cpu, j, h, Without(cps, e), capacity, cp);
    } else {
      AppendKeeps(cpu, j, h, cps, capacity, cp);
    }
  }

  lemma StoreSpaced(cps: seq<Checkpoint>, capacity: nat, interval: nat, cp: Checkpoint,
                    next: seq<Checkpoint>)
    requires 0 < |cps| && Spaced(Ats(cps), interval, capacity) && 2 <= capacity && 0 < interval
    requires var newest := Ats(cps)[|cps| - 1];
             newest < cp.position.attemptedSteps <= newest + interval
    requires StoredNext(cps, capacity, cp, next)
    ensures Spaced(Ats(next), interval, capacity)
    ensures 0 < |next| && Ats(next)[|next| - 1] == cp.position.attemptedSteps
  {
    hide Spaced;
    var (ats, now) := (Ats(cps), cp.position.attemptedSteps);
    if |cps| == capacity {
      var e: nat :| Evictable(ats, now, e) && next == Without(cps, e) + [cp];
      AtsThinned(cps, cp, capacity, e);
      StoreKeepsSpacing(ats, now, interval, capacity, e);
    } else {
      AtsThinned(cps, cp, capacity, 0);
      StoreKeepsSpacing(ats, now, interval, capacity, 0);
    }
  }

  lemma AtsThinned(cps: seq<Checkpoint>, cp: Checkpoint, capacity: nat, e: nat)
    requires |cps| == capacity ==> e < |cps|
    ensures Ats((if |cps| == capacity then Without(cps, e) else cps) + [cp])
         == Thinned(Ats(cps), cp.position.attemptedSteps, capacity, e)
  {
    var next := (if |cps| == capacity then Without(cps, e) else cps) + [cp];
    forall i | 0 <= i < |next|
      ensures Ats(next)[i] == Thinned(Ats(cps), cp.position.attemptedSteps, capacity, e)[i]
    {
      ThinnedAt(Ats(cps), cp.position.attemptedSteps, capacity, e, i);
    }
  }

  /** The store stays good when the run it belongs to goes on. */
  lemma StoreSurvives(cpu: Cpu, j: Journal, h: seq<Snap>, j': Journal, h': seq<Snap>,
                      cps: seq<Checkpoint>, capacity: nat)
    requires 0 < |h| && Stored(cpu, j, h, cps, capacity)
    requires |h| <= |h'| && h == h'[..|h|]
    requires Prefix(j.attempts, j'.attempts)
    ensures Stored(cpu, j', h', cps, capacity)
  {
    forall i | 0 <= i < |cps|
      ensures Taken(cpu, j', h', cps[i])
      ensures 1 <= i ==> Saved(cpu, h', cps[i])
    {
      assert Taken(cpu, j, h, cps[i]);
      assert 1 <= i ==> Saved(cpu, h, cps[i]);
      assert h'[Index(cps[i].position)] == h[Index(cps[i].position)];
    }
  }
}
