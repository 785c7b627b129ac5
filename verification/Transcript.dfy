/**
 The bus transcript (bus.rs): what one step does to it when the host bus is live, what the same step
 does when the transcript answers instead, and why the two agree.
 */
module Transcript {
  import opened Basics
  import opened Machine

  type HostState(!new)
  type HostError(==, !new)

  /** Any host bus: a state and a response to each access. The byte of a write's answer is unused. */
  datatype Host = Host(respond: (HostState, BusAccess) -> (HostState, Result<byte, HostError>))

  datatype BusError =
    | LiveHost(error: HostError)
    | RecordedHostFailure(record: nat)
    | Divergence(at: nat, expected: Option<BusAccess>, actual: BusAccess)

  datatype BusRecord = BusRecord(access: BusAccess, readValue: Option<byte>, failed: bool)

  /** The record `ReplayBus` pushes for an access and the host's answer. */
  function RecordOf(access: BusAccess, answer: Result<byte, HostError>): BusRecord {
    match answer
    case Success(value) => BusRecord(access, if access.IsRead() then Some(value) else None, false)
    case Failure(_) => BusRecord(access, None, true)
  }

  /** What the core receives: a write yields no byte. */
  function Received(access: BusAccess, value: byte): byte {
    if access.IsRead() then value else 0
  }

  /** `playback_read` and `playback_write`: the answer of the transcript at `cursor`, and the cursor
      afterwards. */
  function PlayAccess(records: seq<BusRecord>, cursor: nat, access: BusAccess):
    (Result<byte, BusError>, nat)
  {
    if cursor >= |records| then (Failure(Divergence(cursor, None, access)), cursor)
    else
      var record := records[cursor];
      if record.access != access then
        (Failure(Divergence(cursor, Some(record.access), access)), cursor)
      else if record.failed then (Failure(RecordedHostFailure(cursor)), cursor + 1)
      else if !access.IsRead() then (Success(0), cursor + 1)
      else if record.readValue == None then
        (Failure(Divergence(cursor, Some(access), access)), cursor + 1)
      else (Success(record.readValue.value), cursor + 1)
  }

  /** How a step returns. `Hidden` is a return of `Ok` while a bus error is still pending. */
  datatype Return =
    | Returned(cycles: nat)
    | Threw(error: BusError)
    | Hidden(hiddenCycles: nat, pending: BusError)

  /** What a step returns to its caller. */
  function ResultOf(ret: Return): Result<nat, BusError> {
    match ret
    case Returned(cycles) => Success(cycles)
    case Threw(error) => Failure(error)
    case Hidden(cycles, _) => Success(cycles)
  }

  /** The error still pending after the step. */
  function LeftPending(ret: Return): Option<BusError> {
    if ret.Hidden? then Some(ret.pending) else None
  }

  datatype LiveRun = LiveRun(core: CoreState, host: HostState, records: seq<BusRecord>,
                             notes: seq<Note>, ret: Return)

  datatype PlayRun = PlayRun(core: CoreState, cursor: nat, notes: seq<Note>, ret: Return)

  function Heard(note: Note, pending: Option<BusError>): seq<Note> {
    if pending.Some? && !note.Announce? then [] else [note]
  }

  function Ending(cycles: nat, pending: Option<BusError>): Return {
    match pending
    case None => Returned(cycles)
    case Some(error) => Hidden(cycles, error)
  }

  function Reply(answer: Result<byte, BusError>): Option<byte> {
    match answer
    case Success(value) => Some(value)
    case Failure(_) => None
  }

  function Pending(answer: Result<byte, BusError>): Option<BusError> {
    match answer
    case Success(_) => None
    case Failure(error) => Some(error)
  }

  function LiveAnswer(access: BusAccess, answer: Result<byte, HostError>): Result<byte, BusError> {
    match answer
    case Success(value) => Success(Received(access, value))
    case Failure(error) => Failure(LiveHost(error))
  }

  /** One step on the live bus. Once a bus error is pending, the guarded primitives make no call. */
  function RunLive(s: Step, host: Host, h: HostState, pending: Option<BusError>): LiveRun
    decreases s
  {
    match s
    case Call(access, _, _) =>
      if pending.Some? then RunLive(s.After(None), host, h, pending)
      else
        var (h', answer) := host.respond(h, access);
        var got := LiveAnswer(access, answer);
        var rest := RunLive(s.After(Reply(got)), host, h', Pending(got));
        rest.(records := [RecordOf(access, answer)] + rest.records)
    case Guarded(skipped, next) => RunLive(if pending.Some? then skipped else next, host, h, pending)
    case Report(note, next) =>
      var rest := RunLive(next, host, h, pending);
      rest.(notes := Heard(note, pending) + rest.notes)
    case IfFailed(aborted, next) =>
      if pending.Some? then LiveRun(aborted, h, [], [], Threw(pending.value))
      else RunLive(next, host, h, pending)
    case Finish(core, cycles) => LiveRun(core, h, [], [], Ending(cycles, pending))
  }

  /** One step against the transcript. */
  function RunPlay(s: Step, records: seq<BusRecord>, cursor: nat, pending: Option<BusError>): PlayRun
    decreases s
  {
    match s
    case Call(access, _, _) =>
      if pending.Some? then RunPlay(s.After(None), records, cursor, pending)
      else
        var (got, cursor') := PlayAccess(records, cursor, access);
        RunPlay(s.After(Reply(got)), records, cursor', Pending(got))
    case Guarded(skipped, next) =>
      RunPlay(if pending.Some? then skipped else next, records, cursor, pending)
    case Report(note, next) =>
      var rest := RunPlay(next, records, cursor, pending);
      rest.(notes := Heard(note, pending) + rest.notes)
    case IfFailed(aborted, next) =>
      if pending.Some? then PlayRun(aborted, cursor, [], Threw(pending.value))
      else RunPlay(next, records, cursor, pending)
    case Finish(core, cycles) => PlayRun(core, cursor, [], Ending(cycles, pending))
  }

  // ---------------------------------------------------------------- a failed call is the last call

  /** With an error pending no access reaches the bus, live or played back, and the step ends the same
      way in both. */
  lemma {:induction false} NoCallAfterFailure(s: Step, host: Host, h: HostState,
                                              records: seq<BusRecord>, cursor: nat,
                                              live: BusError, played: BusError)
    ensures var l := RunLive(s, host, h, Some(live));
            var p := RunPlay(s, records, cursor, Some(played));
            && l.records == [] && l.host == h && p.cursor == cursor
            && l.core == p.core && l.notes == p.notes
            && (|| (l.ret == Threw(live) && p.ret == Threw(played))
                || (l.ret.Hidden? && l.ret.pending == live
                    && p.ret == Hidden(l.ret.hiddenCycles, played)))
    decreases s
  {
    match s
    case Call(_, _, _) => NoCallAfterFailure(s.After(None), host, h, records, cursor, live, played);
    case Guarded(skipped, _) => NoCallAfterFailure(skipped, host, h, records, cursor, live, played);
    case Report(_, next) => NoCallAfterFailure(next, host, h, records, cursor, live, played);
    case IfFailed(_, _) =>
    case Finish(_, _) =>
  }

  /** Whatever the step does after a failed bus call, that call's record is the only failed one and the
      last one; a step without a failed call returns normally. */
  lemma {:induction false} FailedCallIsLast(s: Step, host: Host, h: HostState)
    ensures var l := RunLive(s, host, h, None);
            && (forall i :: 0 <= i < |l.records| - 1 ==> !l.records[i].failed)
            && (l.ret.Returned? <==> |l.records| == 0 || !l.records[|l.records| - 1].failed)
            && (l.ret.Threw? ==> l.ret.error.LiveHost?)
            && (l.ret.Hidden? ==> l.ret.pending.LiveHost?)
    decreases s
  {
    match s
    case Call(access, _, _) =>
      var (h', answer) := host.respond(h, access);
      match answer {
        case Success(v) =>
          FailedCallIsLast(s.After(Some(Received(access, v))), host, h');
        case Failure(e) =>
          NoCallAfterFailure(s.After(None), host, h', [], 0, LiveHost(e), LiveHost(e));
      }
    case Guarded(_, next) => FailedCallIsLast(next, host, h);
    case Report(_, next) => FailedCallIsLast(next, host, h);
    case IfFailed(_, next) => FailedCallIsLast(next, host, h);
    case Finish(_, _) =>
  }

  // ------------------------------------------------------------------------------- the simulation

  /** How a live outcome looks when it is played back and the failed call, if any, is record `last`. */
  function Replayed(ret: Return, last: int): Return {
    match ret
    case Returned(cycles) => Returned(cycles)
    case Threw(error) => if last >= 0 then Threw(RecordedHostFailure(last)) else ret
    case Hidden(cycles, error) => if last >= 0 then Hidden(cycles, RecordedHostFailure(last)) else ret
  }

  /** Playing back the transcript a live step wrote, wherever it sits in a longer transcript, repeats
      that step: same core, same notes, same outcome, and every one of its records is consumed. */
  lemma {:induction false} PlaybackRepeatsLive(s: Step, host: Host, h: HostState,
                                               before: seq<BusRecord>, after: seq<BusRecord>)
    ensures var l := RunLive(s, host, h, None);
            var p := RunPlay(s, before + l.records + after, |before|, None);
            && p.core == l.core
            && p.notes == l.notes
            && p.cursor == |before| + |l.records|
            && p.ret == Replayed(l.ret, |before| + |l.records| - 1)
    decreases s
  {
    var l := RunLive(s, host, h, None);
    var records := before + l.records + after;
    match s
    case Call(access, _, _) =>
      var (h', answer) := host.respond(h, access);
      var record := RecordOf(access, answer);
      var got := LiveAnswer(access, answer);
      var rest := RunLive(s.After(Reply(got)), host, h', Pending(got));
      assert records[|before|] == record;
      match answer {
        case Success(v) =>
          assert records == (before + [record]) + rest.records + after;
          PlaybackRepeatsLive(s.After(Some(Received(access, v))), host, h', before + [record], after);
        case Failure(e) =>
          NoCallAfterFailure(s.After(None), host, h', records, |before| + 1,
                             LiveHost(e), RecordedHostFailure(|before|));
      }
    case Guarded(_, next) => PlaybackRepeatsLive(next, host, h, before, after);
    case Report(_, next) => PlaybackRepeatsLive(next, host, h, before, after);
    case IfFailed(_, next) => PlaybackRepeatsLive(next, host, h, before, after);
    case Finish(_, _) =>
  }

  /** A played-back step that did not diverge never looked past the records it consumed: more records
      at the end of the transcript change nothing. */
  lemma {:induction false} PlaybackIgnoresSuffix(s: Step, records: seq<BusRecord>, more: seq<BusRecord>,
                                                 cursor: nat, pending: Option<BusError>)
    requires pending.Some? ==> pending.value.RecordedHostFailure?
    requires var p := RunPlay(s, records, cursor, pending);
             !(p.ret.Threw? && p.ret.error.Divergence?) && !(p.ret.Hidden? && p.ret.pending.Divergence?)
    ensures RunPlay(s, records + more, cursor, pending) == RunPlay(s, records, cursor, pending)
    ensures cursor <= |records| ==> cursor <= RunPlay(s, records, cursor, pending).cursor <= |records|
    decreases s
  {
    match s
    case Call(access, _, _) =>
      if pending.Some? {
        PlaybackIgnoresSuffix(s.After(None), records, more, cursor, pending);
      } else {
        var (got, cursor') := PlayAccess(records, cursor, access);
        if got.Failure? && got.error.Divergence? {
          DivergenceIsReported(s.After(None), records, cursor', got.error);
        } else {
          PlaybackIgnoresSuffix(s.After(Reply(got)), records, more, cursor', Pending(got));
        }
      }
    case Guarded(skipped, next) =>
      PlaybackIgnoresSuffix(if pending.Some? then skipped else next, records, more, cursor, pending);
    case Report(_, next) => PlaybackIgnoresSuffix(next, records, more, cursor, pending);
    case IfFailed(_, next) =>
      if pending.None? {
        PlaybackIgnoresSuffix(next, records, more, cursor, pending);
      }
    case Finish(_, _) =>
  }

  lemma {:induction false} DivergenceIsReported(s: Step, records: seq<BusRecord>, cursor: nat,
                                                error: BusError)
    ensures var p := RunPlay(s, records, cursor, Some(error));
            p.ret == Threw(error) || (p.ret.Hidden? && p.ret.pending == error)
    decreases s
  {
    match s
    case Call(_, _, _) => DivergenceIsReported(s.After(None), records, cursor, error);
    case Guarded(skipped, _) => DivergenceIsReported(skipped, records, cursor, error);
    case Report(_, next) => DivergenceIsReported(next, records, cursor, error);
    case IfFailed(_, _) =>
    case Finish(_, _) =>
  }

  /** A grounded step ends in a loadable core with the clock at or past `floor`. */
  lemma {:induction false} PlayStaysGrounded(cpu: Cpu, s: Step, floor: nat, records: seq<BusRecord>,
                                             cursor: nat, pending: Option<BusError>)
    requires cpu.Grounded(s, floor)
    ensures var p := RunPlay(s, records, cursor, pending);
            cpu.loadable(p.core) && floor <= p.core.cycleCount
    decreases s
  {
    match s
    case Call(access, _, _) =>
      if pending.Some? {
        PlayStaysGrounded(cpu, s.After(None), floor, records, cursor, pending);
      } else {
        var (got, cursor') := PlayAccess(records, cursor, access);
        PlayStaysGrounded(cpu, s.After(Reply(got)), floor, records, cursor', Pending(got));
      }
    case Guarded(skipped, next) =>
      PlayStaysGrounded(cpu, if pending.Some? then skipped else next, floor, records, cursor, pending);
    case Report(_, next) => PlayStaysGrounded(cpu, next, floor, records, cursor, pending);
    case IfFailed(_, next) =>
      if pending.None? {
        PlayStaysGrounded(cpu, next, floor, records, cursor, pending);
      }
    case Finish(_, _) =>
  }

  lemma {:induction false} LiveStaysGrounded(cpu: Cpu, s: Step, floor: nat, host: Host, h: HostState,
                                             pending: Option<BusError>)
    requires cpu.Grounded(s, floor)
    ensures cpu.loadable(RunLive(s, host, h, pending).core)
    decreases s
  {
    match s
    case Call(access, _, _) =>
      if pending.Some? {
        LiveStaysGrounded(cpu, s.After(None), floor, host, h, pending);
      } else {
        var (h', answer) := host.respond(h, access);
        var got := LiveAnswer(access, answer);
        LiveStaysGrounded(cpu, s.After(Reply(got)), floor, host, h', Pending(got));
      }
    case Guarded(skipped, next) =>
      LiveStaysGrounded(cpu, if pending.Some? then skipped else next, floor, host, h, pending);
    case Report(_, next) => LiveStaysGrounded(cpu, next, floor, host, h, pending);
    case IfFailed(_, next) =>
      if pending.None? {
        LiveStaysGrounded(cpu, next, floor, host, h, pending);
      }
    case Finish(_, _) =>
  }
}
