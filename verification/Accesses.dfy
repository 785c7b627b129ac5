/**
 What a step asks of the bus, given the answers, and why playback accepts no other transcript: the records that
 a playback consumes are the accesses that the step makes, one by one, and the first that is not ends it.
 */
module Accesses {
  import opened Basics
  import opened Machine
  import opened Transcript
  import opened Journals

  /** Where a step ends: its result, if it returns one, and whether a call had failed by then. */
  datatype End = End(core: CoreState, result: Option<nat>, failed: bool)

  /** What a step asks for, what it reports, and where it ends; no end if it asks for more than there are answers. */
  datatype Course = Course(asked: seq<BusAccess>, notes: seq<Note>, end: Option<End>)

  /** The course of a step whose calls get these answers; `None` is a failed call, after which guest accesses are no
      longer reported. */
  function Follow(s: Step, answers: seq<Option<byte>>, failed: bool): Course
    decreases s
  {
    match s
    case Call(access, _, _) =>
      if failed then Follow(s.After(None), answers, true)
      else if answers == [] then Course([access], [], None)
      else
        var rest := Follow(s.After(answers[0]), answers[1..], answers[0].None?);
        rest.(asked := [access] + rest.asked)
    case Guarded(skipped, next) => Follow(if failed then skipped else next, answers, failed)
    case Report(note, next) =>
      var rest := Follow(next, answers, failed);
      if failed && !note.Announce? then rest else rest.(notes := [note] + rest.notes)
    case IfFailed(aborted, next) =>
      if failed then Course([], [], Some(End(aborted, None, true))) else Follow(next, answers, failed)
    case Finish(core, cycles) => Course([], [], Some(End(core, Some(cycles), failed)))
  }

  /** What the bus said: nothing if the call failed, and no byte to a write. */
  function AnswersIn(records: seq<BusRecord>): (answers: seq<Option<byte>>)
    ensures |answers| == |records|
  {
    seq(|records|, i requires 0 <= i < |records| =>
      if records[i].failed then None
      else if records[i].access.IsRead() then records[i].readValue
      else Some(0))
  }

  function AccessesIn(records: seq<BusRecord>): (accesses: seq<BusAccess>)
    ensures |accesses| == |records|
  {
    seq(|records|, i requires 0 <= i < |records| => records[i].access)
  }

  /** Every read that did not fail has its byte. */
  predicate Valued(records: seq<BusRecord>) {
    forall i :: 0 <= i < |records| && records[i].access.IsRead() && !records[i].failed ==>
      records[i].readValue.Some?
  }

  /** The course of the step on these records. */
  function CourseOn(s: Step, records: seq<BusRecord>): Course {
    Follow(s, AnswersIn(records), false)
  }

  /** The records are what the step asks for, access by access, up to its end. */
  predicate Made(s: Step, records: seq<BusRecord>) {
    Valued(records) && CourseOn(s, records).asked == AccessesIn(records) && CourseOn(s, records).end.Some?
  }

  predicate Diverged(ret: Return) {
    (ret.Threw? && ret.error.Divergence?) || (ret.Hidden? && ret.pending.Divergence?)
  }

  function DivergenceOf(ret: Return): BusError
    requires Diverged(ret)
  {
    if ret.Threw? then ret.error else ret.pending
  }

  /** How a step that came to this end returns, if its failed call is record `last`. */
  function ReturnOf(end: End, last: int): Return {
    match end.result
    case Some(cycles) =>
      if end.failed && last >= 0 then Hidden(cycles, RecordedHostFailure(last)) else Returned(cycles)
    case None => Threw(RecordedHostFailure(if last >= 0 then last else 0))
  }

  lemma FirstAnswer(r: BusRecord, rest: seq<BusRecord>)
    ensures AnswersIn([r] + rest)[0] == (if r.failed then None
                                         else if r.access.IsRead() then r.readValue else Some(0))
    ensures AnswersIn([r] + rest)[1..] == AnswersIn(rest)
    ensures AccessesIn([r] + rest) == [r.access] + AccessesIn(rest)
    ensures Valued([r] + rest) <==> Valued([r]) && Valued(rest)
  {
    var all := [r] + rest;
    assert forall i :: 0 <= i < |rest| ==> all[i + 1] == rest[i];
    if Valued(all) {
      assert all[0] == r;
    }
    if Valued([r]) && Valued(rest) {
      assert [r][0] == r;
    }
  }

  /** With a failed call behind it a step asks for nothing more, and ends as its playback does. */
  lemma {:induction false} FailedCourse(s: Step, records: seq<BusRecord>, cursor: nat, error: BusError,
                                        answers: seq<Option<byte>>)
    ensures var (c, p) := (Follow(s, answers, true), RunPlay(s, records, cursor, Some(error)));
            && c.asked == [] && c.end.Some? && c.end.value.failed && p.cursor == cursor
            && p.core == c.end.value.core && p.notes == c.notes
            && p.ret == match c.end.value.result
                        case Some(cycles) => Hidden(cycles, error)
                        case None => Threw(error)
    decreases s
  {
    match s
    case Call(_, _, _) => FailedCourse(s.After(None), records, cursor, error, answers);
    case Guarded(skipped, _) => FailedCourse(skipped, records, cursor, error, answers);
    case Report(_, next) => FailedCourse(next, records, cursor, error, answers);
    case IfFailed(_, _) =>
    case Finish(_, _) =>
  }

  // ----------------------------------------------------------------------- playback and the course

  /** What a playback that does not diverge has consumed is what the step asks for, and it ends as the step
      ends on these answers. */
  lemma {:induction false} PlayedIsMade(s: Step, records: seq<BusRecord>, cursor: nat)
    requires cursor <= |records| && !Diverged(RunPlay(s, records, cursor, None).ret)
    ensures var p := RunPlay(s, records, cursor, None);
            && cursor <= p.cursor <= |records| && Made(s, records[cursor..p.cursor])
            && var end := CourseOn(s, records[cursor..p.cursor]).end.value;
               && p.core == end.core && p.ret == ReturnOf(end, p.cursor - 1)
               && p.notes == CourseOn(s, records[cursor..p.cursor]).notes
               && (end.failed ==> cursor < p.cursor) && (end.result == None ==> end.failed)
    decreases s
  {
    var p := RunPlay(s, records, cursor, None);
    match s
    case Call(access, _, _) =>
      var (got, cursor') := PlayAccess(records, cursor, access);
      if got.Success? {
        PlayedIsMade(s.After(Some(got.value)), records, cursor');
        assert records[cursor..p.cursor] == [records[cursor]] + records[cursor'..p.cursor];
        FirstAnswer(records[cursor], records[cursor'..p.cursor]);
      } else {
        FailedCourse(s.After(None), records, cursor', got.error, []);
        assert records[cursor..cursor + 1] == [records[cursor]] + [];
        FirstAnswer(records[cursor], []);
      }
    case Guarded(_, next) => PlayedIsMade(next, records, cursor);
    case Report(_, next) => PlayedIsMade(next, records, cursor);
    case IfFailed(_, next) => PlayedIsMade(next, records, cursor);
    case Finish(_, _) => assert records[cursor..cursor] == [];
  }

  /** The converse: records that the step asks for are played back to their end. */
  lemma {:induction false} MadeIsPlayed(s: Step, records: seq<BusRecord>, cursor: nat, n: nat)
    requires cursor + n <= |records| && Made(s, records[cursor..cursor + n])
    ensures var p := RunPlay(s, records, cursor, None);
            !Diverged(p.ret) && p.cursor == cursor + n
    decreases s
  {
    match s
    case Call(access, _, _) =>
      var used := records[cursor..cursor + n];
      var record := records[cursor];
      assert n == 0 ==> AnswersIn(used) == [];
      assert used == [record] + records[cursor + 1..cursor + n];
      FirstAnswer(record, records[cursor + 1..cursor + n]);
      assert AccessesIn(used)[0] == record.access == access;
      assert AccessesIn(used)[1..] == AccessesIn(records[cursor + 1..cursor + n]);
      var (got, cursor') := PlayAccess(records, cursor, access);
      if got.Success? {
        MadeIsPlayed(s.After(Some(got.value)), records, cursor', n - 1);
      } else {
        FailedCourse(s.After(None), records, cursor', got.error, AnswersIn(used)[1..]);
      }
    case Guarded(_, next) => MadeIsPlayed(next, records, cursor, n);
    case Report(_, next) => MadeIsPlayed(next, records, cursor, n);
    case IfFailed(_, next) => MadeIsPlayed(next, records, cursor, n);
    case Finish(_, _) =>
  }

  /** Record `at` is not the answer to `actual`: it is missing, it is another access, or it is a read that has
      no byte. */
  predicate Unanswered(records: seq<BusRecord>, at: nat, expected: Option<BusAccess>, actual: BusAccess) {
    if at >= |records| then expected == None
    else
      && expected == Some(records[at].access)
      && (records[at].access != actual
          || (actual.IsRead() && !records[at].failed && records[at].readValue == None))
  }

  /** A playback that diverges has consumed what the step asks for up to the access that it names, the next
      one that the step asks for, and the record there does not answer it. */
  lemma {:induction false} DivergesAtFirst(s: Step, records: seq<BusRecord>, cursor: nat)
    requires cursor <= |records| && Diverged(RunPlay(s, records, cursor, None).ret)
    ensures var d := DivergenceOf(RunPlay(s, records, cursor, None).ret);
            && cursor <= d.at <= |records| && Valued(records[cursor..d.at])
            && CourseOn(s, records[cursor..d.at]).asked == AccessesIn(records[cursor..d.at]) + [d.actual]
            && CourseOn(s, records[cursor..d.at]).end == None
            && Unanswered(records, d.at, d.expected, d.actual)
    decreases s
  {
    match s
    case Call(access, _, _) =>
      var (got, cursor') := PlayAccess(records, cursor, access);
      if got.Success? {
        DivergesAtFirst(s.After(Some(got.value)), records, cursor');
        var at := DivergenceOf(RunPlay(s, records, cursor, None).ret).at;
        assert records[cursor..at] == [records[cursor]] + records[cursor'..at];
        FirstAnswer(records[cursor], records[cursor'..at]);
      } else {
        DivergenceIsReported(s.After(None), records, cursor', got.error);
        assert records[cursor..cursor] == [];
        assert AnswersIn([]) == [];
      }
    case Guarded(_, next) => DivergesAtFirst(next, records, cursor);
    case Report(_, next) => DivergesAtFirst(next, records, cursor);
    case IfFailed(_, next) => DivergesAtFirst(next, records, cursor);
    case Finish(_, _) =>
  }

  /** So a playback does not diverge exactly if the records go on with what the step asks for. */
  lemma PlaybackAcceptsIff(s: Step, records: seq<BusRecord>, cursor: nat)
    requires cursor <= |records|
    ensures !Diverged(RunPlay(s, records, cursor, None).ret)
       <==> exists end :: cursor <= end <= |records| && Made(s, records[cursor..end])
  {
    if !Diverged(RunPlay(s, records, cursor, None).ret) {
      PlayedIsMade(s, records, cursor);
    }
    if end :| cursor <= end <= |records| && Made(s, records[cursor..end]) {
      MadeIsPlayed(s, records, cursor, end - cursor);
    }
  }

  // ------------------------------------------------------------------------- what a journal records

  /** The bus records between two places of a run. */
  function Between(j: Journal, a: Snap, b: Snap): seq<BusRecord>
    requires a.pos.busRecords <= b.pos.busRecords <= |j.records|
  {
    j.records[a.pos.busRecords..b.pos.busRecords]
  }

  /** From `a` to `b` the journal says what the machine does: an action has the recorded outcome and makes no bus
      call; an attempt makes exactly the recorded accesses, and ends as its record says. */
  ghost predicate TrueStep(cpu: Cpu, j: Journal, a: Snap, b: Snap) {
    && a.pos.busRecords <= b.pos.busRecords <= |j.records|
    && if Due(j, a.pos) then
         && b.pos == a.pos.(actions := a.pos.actions + 1)
         && TrueAction(cpu, j.actions[a.pos.actions].action, a.state, b.state)
       else a.pos.attemptedSteps < |j.attempts| && TrueAttempt(cpu, j, a, b)
  }

  ghost predicate TrueAction(cpu: Cpu, action: Action, st: MachineState, st': MachineState) {
    match action
    case Stimulate(stimulus, outcome) =>
      cpu.stimulate(st.core, stimulus) == (st'.core, outcome) && st'.debug == st.debug
    case Drain(output, drained) =>
      if output == Events then
        && drained == EventsOut(st.debug.events)
        && st' == st.(debug := st.debug.(events := []))
      else cpu.drain(st.core, output) == (st'.core, drained) && st'.debug == st.debug
  }

  ghost predicate TrueAttempt(cpu: Cpu, j: Journal, a: Snap, b: Snap)
    requires a.pos.busRecords <= b.pos.busRecords <= |j.records|
    requires a.pos.attemptedSteps < |j.attempts|
  {
    var (used, attempt) := (Between(j, a, b), j.attempts[a.pos.attemptedSteps]);
    && b.pos == attempt.end && b.pos.attemptedSteps == a.pos.attemptedSteps + 1
    && b.pos.cycle == b.state.core.cycleCount
    && Made(cpu.step(a.state.core), used)
    && var end := CourseOn(cpu.step(a.state.core), used).end.value;
       && b.state.core == end.core
       && b.state.debug == ObserveAll(a.state.debug, CourseOn(cpu.step(a.state.core), used).notes)
       && match attempt.outcome
          case Completed(cycles) => end.result == Some(cycles) && !end.failed
          case HostFailure(record) => end.result == None && record == b.pos.busRecords - 1
  }

  /** In a recorded run the journal says what the machine does, entry by entry. */
  lemma RunIsTrue(cpu: Cpu, j: Journal, h: seq<Snap>, i: nat)
    requires cpu.Lawful() && Recorded(cpu, j, h) && i + 1 < |h|
    ensures TrueStep(cpu, j, h[i], h[i + 1])
  {
    var (a, b) := (h[i], h[i + 1]);
    ChainSound(cpu, j, h, i);
    ChainSound(cpu, j, h, i + 1);
    EntryGrows(cpu, j, h, i);
    if !Due(j, a.pos) {
      PlayedIsMade(cpu.step(a.state.core), j.records, a.pos.busRecords);
    }
  }

  /** Bus record `r` is an access that the CPU makes: call `r - h[i].busRecords` of the attempt after entry `i`. */
  ghost predicate MadeAt(cpu: Cpu, j: Journal, h: seq<Snap>, r: nat, i: nat)
    requires r < |j.records|
  {
    && i + 1 < |h| && h[i].pos.busRecords <= r < h[i + 1].pos.busRecords <= |j.records|
    && var asked := CourseOn(cpu.step(h[i].state.core), Between(j, h[i], h[i + 1])).asked;
       |asked| == |Between(j, h[i], h[i + 1])| && asked[r - h[i].pos.busRecords] == j.records[r].access
  }

  /** Every record of a recorded run is an access that the CPU makes. */
  lemma EveryRecordIsMade(cpu: Cpu, j: Journal, h: seq<Snap>, r: nat) returns (i: nat)
    requires cpu.Lawful() && Recorded(cpu, j, h) && r < |j.records|
    ensures MadeAt(cpu, j, h, r, i)
  {
    i := |h| - 1;
    while h[i].pos.busRecords > r
      invariant 0 <= i < |h| && (h[i].pos.busRecords > r || (i + 1 < |h| && r < h[i + 1].pos.busRecords))
      decreases i
    {
      i := i - 1;
    }
    RunIsTrue(cpu, j, h, i);
    var used := Between(j, h[i], h[i + 1]);
    assert AccessesIn(used)[r - h[i].pos.busRecords] == j.records[r].access;
  }

  /** The journal says what the machine does. */
  ghost predicate SaysTrue(cpu: Cpu, j: Journal, h: seq<Snap>) {
    && (forall i :: 0 <= i < |h| - 1 ==> TrueAt(cpu, j, h, i))
    && forall r :: 0 <= r < |j.records| ==> MadeSomewhere(cpu, j, h, r)
  }

  ghost predicate MadeSomewhere(cpu: Cpu, j: Journal, h: seq<Snap>, r: nat)
    requires r < |j.records|
  {
    exists i :: MadeAt(cpu, j, h, r, i)
  }

  ghost predicate TrueAt(cpu: Cpu, j: Journal, h: seq<Snap>, i: nat)
    requires i + 1 < |h|
  {
    TrueStep(cpu, j, h[i], h[i + 1])
  }

  lemma RunSaysTrue(cpu: Cpu, j: Journal, h: seq<Snap>)
    requires cpu.Lawful() && Recorded(cpu, j, h)
    ensures SaysTrue(cpu, j, h)
  {
    hide MadeAt, TrueStep;
    forall i | 0 <= i < |h| - 1
      ensures TrueAt(cpu, j, h, i)
    {
      RunIsTrue(cpu, j, h, i);
    }
    forall r | 0 <= r < |j.records|
      ensures MadeSomewhere(cpu, j, h, r)
    {
      var i := EveryRecordIsMade(cpu, j, h, r);
    }
  }
}
