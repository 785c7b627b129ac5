/**
 The control path of `try_step` (lib.rs): DMA, interrupts, HALT and SLP, fetch, TRAP and the opcode
 handler, each an arbitrary program over the guarded access primitives, with the failure checks and the
 rollback between them.
 */
module Stepping {
  import opened Basics
  import opened Machine
  import opened Transcript
  import opened Journals

  /** A part of a step: a program over the guarded primitives that ends in a core and a number. `Touch` is an
      access that core memory answers; while an error is pending it is skipped. */
  datatype Code =
    | Ask(access: BusAccess, replies: seq<Code>, failed: Code)
    | Touch(skipped: Code, next: Code)
    | Tell(note: Note, next: Code)
    | Done(core: CoreState, value: nat)
  {
    function After(reply: Option<byte>): (c: Code)
      requires Ask?
      ensures c < this
    {
      if reply.Some? && reply.value < |replies| then replies[reply.value] else failed
    }
  }

  /** What the fetched opcode selects: a handler, or a TRAP, after the operand read of an undefined
      indexed-bit opcode or at once. */
  datatype Decoded =
    | Handle(handler: Code)
    | Trap(trap: CoreState -> Code)
    | TrapAfterRead(read: Code, trap: CoreState -> Code)

  /** The rollback of a failed instruction: `c` with the registers, the EI shadow and the PC-watch count of
      `saved`. */
  function Restored(saved: CoreState, c: CoreState): CoreState {
    c.(registers := saved.registers, eiShadow := saved.eiShadow, pcWatchHits := saved.pcWatchHits)
  }

  /** The registers, the EI shadow and the PC-watch count are as they were. */
  ghost predicate RolledBack(saved: CoreState, c: CoreState) {
    c.registers == saved.registers && c.eiShadow == saved.eiShadow && c.pcWatchHits == saved.pcWatchHits
  }

  /** The arbitrary parts of a machine. */
  datatype Parts = Parts(
    begin: CoreState -> CoreState,
    serviceDma: CoreState -> Code,
    finishStep: (CoreState, nat) -> CoreState,
    acknowledge: CoreState -> Option<Code>,
    declined: CoreState -> CoreState,
    halted: CoreState -> bool,
    sleeping: CoreState -> bool,
    haltRead: CoreState -> Code,
    arm: CoreState -> CoreState,
    fetch: CoreState -> Code,
    decode: (CoreState, nat) -> Decoded)
  {
    ghost predicate DmaCharges(c: CoreState) {
      begin(c).cycleCount == c.cycleCount && Charges(serviceDma(c), c.cycleCount)
    }

    ghost predicate CheckPointCharges(c: CoreState) {
      && (acknowledge(c).Some? ==> Charges(acknowledge(c).value, c.cycleCount))
      && declined(c).cycleCount == c.cycleCount && Charges(haltRead(c), c.cycleCount)
    }

    ghost predicate FetchCharges(c: CoreState) {
      arm(c).cycleCount == c.cycleCount && Charges(fetch(c), c.cycleCount)
    }

    ghost predicate DecodedCharges(c: CoreState, opcode: nat) {
      match decode(c, opcode)
      case Handle(handler) => Charges(handler, c.cycleCount)
      case Trap(_) => true
      case TrapAfterRead(read, _) => Charges(read, c.cycleCount)
    }

    /** Only `finish_step` charges cycles. */
    ghost predicate Lawful() {
      && (forall c {:trigger DmaCharges(c)} :: DmaCharges(c))
      && (forall c {:trigger CheckPointCharges(c)} :: CheckPointCharges(c))
      && (forall c {:trigger FetchCharges(c)} :: FetchCharges(c))
      && (forall c, o {:trigger DecodedCharges(c, o)} :: DecodedCharges(c, o))
    }
  }

  /** Every end of the code has the clock at `now`. */
  ghost predicate Charges(code: Code, now: nat)
    decreases code
  {
    match code
    case Ask(_, replies, failed) =>
      (forall i :: 0 <= i < |replies| ==> Charges(replies[i], now)) && Charges(failed, now)
    case Touch(skipped, next) => Charges(skipped, now) && Charges(next, now)
    case Tell(_, next) => Charges(next, now)
    case Done(core, _) => core.cycleCount == now
  }

  /** Run `code`, then go on with `k` from where it ends. */
  function Seq(code: Code, k: (CoreState, nat) -> Step): Step
    decreases code
  {
    match code
    case Ask(access, replies, failed) =>
      Call(access, seq(|replies|, i requires 0 <= i < |replies| => Seq(replies[i], k)), Seq(failed, k))
    case Touch(skipped, next) => Guarded(Seq(skipped, k), Seq(next, k))
    case Tell(note, next) => Report(note, Seq(next, k))
    case Done(core, value) => k(core, value)
  }

  // --------------------------------------------------------------------------------- the control path

  // Each stage is the code of that stage followed by a continuation; the failure checks
  // `if let Some(error) = self.bus_error.take()` are the `IfFailed` nodes.

  /** `try_step`. */
  function TryStep(p: Parts, c: CoreState): Step {
    Seq(p.serviceDma(p.begin(c)), AfterDma(p))
  }

  function AfterDma(p: Parts): (CoreState, nat) -> Step {
    (c: CoreState, dma: nat) =>
      IfFailed(c, CheckPoint(p, if dma != 0 then p.finishStep(c, dma) else c, dma))
  }

  /** The interrupt check point, HALT and SLP. */
  function CheckPoint(p: Parts, c: CoreState, dma: nat): Step {
    match p.acknowledge(c)
    case Some(code) => Seq(code, CheckAndFinish(p, dma))
    case None =>
      var c' := p.declined(c);
      if p.halted(c') then Seq(p.haltRead(c'), CheckAndFinish(p, dma))
      else if p.sleeping(c') then Finish(p.finishStep(c', 3), dma + 3)
      else Instruction(p, c', dma)
  }

  function CheckAndFinish(p: Parts, dma: nat): (CoreState, nat) -> Step {
    (c: CoreState, cycles: nat) => IfFailed(c, Finish(p.finishStep(c, cycles), dma + cycles))
  }

  /** Fetch and execute; `saved` is the machine at the start of the instruction. */
  function Instruction(p: Parts, saved: CoreState, dma: nat): Step {
    Seq(p.fetch(p.arm(saved)), AfterFetch(p, saved, dma))
  }

  function AfterFetch(p: Parts, saved: CoreState, dma: nat): (CoreState, nat) -> Step {
    (c: CoreState, opcode: nat) =>
      IfFailed(Restored(saved, c), Execute(p, saved, c, p.decode(c, opcode), dma))
  }

  function Execute(p: Parts, saved: CoreState, c: CoreState, decoded: Decoded, dma: nat): Step {
    match decoded
    case Handle(handler) => Seq(handler, AfterHandler(p, saved, dma))
    case Trap(trap) => TakeTrap(p, trap(c), dma)
    case TrapAfterRead(read, trap) => Seq(read, AfterTrapRead(p, saved, trap, dma))
  }

  function AfterHandler(p: Parts, saved: CoreState, dma: nat): (CoreState, nat) -> Step {
    (c: CoreState, cycles: nat) =>
      IfFailed(Restored(saved, c), Finish(p.finishStep(c, cycles), dma + cycles))
  }

  function AfterTrapRead(p: Parts, saved: CoreState, trap: CoreState -> Code, dma: nat):
    (CoreState, nat) -> Step
  {
    (c: CoreState, _: nat) => IfFailed(Restored(saved, c), TakeTrap(p, trap(c), dma))
  }

  /** The TRAP path returns without testing for a bus failure. */
  function TakeTrap(p: Parts, trap: Code, dma: nat): Step {
    Seq(trap, AfterTrap(p, dma))
  }

  function AfterTrap(p: Parts, dma: nat): (CoreState, nat) -> Step {
    (c: CoreState, cycles: nat) => Finish(p.finishStep(c, cycles), dma + cycles)
  }

  // ------------------------------------------------------------------------------------ running code

  datatype CodeRun = CodeRun(core: CoreState, value: nat, host: HostState, records: seq<BusRecord>,
                             notes: seq<Note>, pending: Option<BusError>)

  function RunCode(code: Code, host: Host, h: HostState, pending: Option<BusError>): CodeRun
    decreases code
  {
    match code
    case Ask(access, _, _) =>
      if pending.Some? then RunCode(code.After(None), host, h, pending)
      else
        var (h', answer) := host.respond(h, access);
        var got := LiveAnswer(access, answer);
        var rest := RunCode(code.After(Reply(got)), host, h', Pending(got));
        rest.(records := [RecordOf(access, answer)] + rest.records)
    case Touch(skipped, next) => RunCode(if pending.Some? then skipped else next, host, h, pending)
    case Tell(note, next) =>
      var rest := RunCode(next, host, h, pending);
      rest.(notes := Heard(note, pending) + rest.notes)
    case Done(core, value) => CodeRun(core, value, h, [], [], pending)
  }

  /** Running a sequence is running its first part and then the rest. */
  lemma {:induction false} SeqRuns(code: Code, k: (CoreState, nat) -> Step, host: Host, h: HostState,
                                   pending: Option<BusError>)
    ensures var first := RunCode(code, host, h, pending);
            var rest := RunLive(k(first.core, first.value), host, first.host, first.pending);
            RunLive(Seq(code, k), host, h, pending)
            == rest.(records := first.records + rest.records, notes := first.notes + rest.notes)
    decreases code
  {
    match code
    case Ask(access, replies, failed) =>
      var s := Seq(code, k);
      assert forall reply: Option<byte> :: s.After(reply) == Seq(code.After(reply), k);
      if pending.Some? {
        SeqRuns(code.After(None), k, host, h, pending);
      } else {
        var (h', answer) := host.respond(h, access);
        var got := LiveAnswer(access, answer);
        SeqRuns(code.After(Reply(got)), k, host, h', Pending(got));
        var first := RunCode(code.After(Reply(got)), host, h', Pending(got));
        var rest := RunLive(k(first.core, first.value), host, first.host, first.pending);
        assert [RecordOf(access, answer)] + (first.records + rest.records)
            == [RecordOf(access, answer)] + first.records + rest.records;
      }
    case Touch(skipped, next) => SeqRuns(if pending.Some? then skipped else next, k, host, h, pending);
    case Tell(note, next) =>
      SeqRuns(next, k, host, h, pending);
      var first := RunCode(next, host, h, pending);
      var rest := RunLive(k(first.core, first.value), host, first.host, first.pending);
      assert Heard(note, pending) + (first.notes + rest.notes)
          == Heard(note, pending) + first.notes + rest.notes;
    case Done(core, value) =>
      var rest := RunLive(k(core, value), host, h, pending);
      assert [] + rest.records == rest.records && [] + rest.notes == rest.notes;
  }

  /** Once a failure is pending it stays pending and no call is made. */
  lemma {:induction false} PendingStays(code: Code, host: Host, h: HostState, error: BusError)
    ensures var run := RunCode(code, host, h, Some(error));
            run.pending == Some(error) && run.records == [] && run.host == h
    decreases code
  {
    match code
    case Ask(_, _, _) => PendingStays(code.After(None), host, h, error);
    case Touch(skipped, _) => PendingStays(skipped, host, h, error);
    case Tell(_, next) => PendingStays(next, host, h, error);
    case Done(_, _) =>
  }

  lemma {:induction false} ChargesNothing(code: Code, now: nat, host: Host, h: HostState,
                                          pending: Option<BusError>)
    requires Charges(code, now)
    ensures RunCode(code, host, h, pending).core.cycleCount == now
    decreases code
  {
    match code
    case Ask(access, _, _) =>
      if pending.Some? {
        ChargesNothing(code.After(None), now, host, h, pending);
      } else {
        var (h', answer) := host.respond(h, access);
        var got := LiveAnswer(access, answer);
        ChargesNothing(code.After(Reply(got)), now, host, h', Pending(got));
      }
    case Touch(skipped, next) =>
      ChargesNothing(if pending.Some? then skipped else next, now, host, h, pending);
    case Tell(_, next) => ChargesNothing(next, now, host, h, pending);
    case Done(_, _) =>
  }

  // --------------------------------------------------------------------------------------- results

  /** Where an instruction stops trying: the run of its fetch, and of what follows the fetch. */
  function FetchRun(p: Parts, saved: CoreState, host: Host, h: HostState): CodeRun {
    RunCode(p.fetch(p.arm(saved)), host, h, None)
  }

  /** The push of a TRAP, if the opcode takes one. */
  function TrapRun(p: Parts, saved: CoreState, host: Host, h: HostState): Option<CodeRun> {
    var f := FetchRun(p, saved, host, h);
    if f.pending.Some? then None
    else
      match p.decode(f.core, f.value)
      case Handle(_) => None
      case Trap(trap) => Some(RunCode(trap(f.core), host, f.host, None))
      case TrapAfterRead(read, trap) =>
        var r := RunCode(read, host, f.host, None);
        if r.pending.Some? then None else Some(RunCode(trap(r.core), host, r.host, None))
  }

  predicate TrapFails(p: Parts, saved: CoreState, host: Host, h: HostState) {
    TrapRun(p, saved, host, h).Some? && TrapRun(p, saved, host, h).value.pending.Some?
  }

  /** A failed instruction leaves the registers, the EI shadow and the PC-watch count as they were and
      charges no cycles. It is reported by the very step it fails in, unless it is the stack push of a
      TRAP that fails: then, and only then, the step returns normally and the failure stays pending. */
  lemma FailedInstructionRollsBack(p: Parts, saved: CoreState, dma: nat, host: Host, h: HostState)
    requires p.Lawful()
    ensures var run := RunLive(Instruction(p, saved, dma), host, h, None);
            && (run.ret.Threw? ==>
                  RolledBack(saved, run.core) && run.core.cycleCount == saved.cycleCount)
            && (run.ret.Hidden? <==> TrapFails(p, saved, host, h))
  {
    var f := FetchRun(p, saved, host, h);
    var run := RunLive(Instruction(p, saved, dma), host, h, None);
    assert p.FetchCharges(saved) && p.FetchCharges(p.arm(saved));
    ChargesNothing(p.fetch(p.arm(saved)), saved.cycleCount, host, h, None);
    SeqRuns(p.fetch(p.arm(saved)), AfterFetch(p, saved, dma), host, h, None);
    if f.pending.Some? {
      assert run.core == Restored(saved, f.core);
    } else {
      assert p.DecodedCharges(f.core, f.value);
      match p.decode(f.core, f.value)
      case Handle(handler) =>
        SeqRuns(handler, AfterHandler(p, saved, dma), host, f.host, None);
        ChargesNothing(handler, saved.cycleCount, host, f.host, None);
        assert run.ret.Threw? ==> run.core == Restored(saved, RunCode(handler, host, f.host, None).core);
      case Trap(trap) => TrapRuns(p, trap(f.core), dma, host, f.host);
      case TrapAfterRead(read, trap) =>
        SeqRuns(read, AfterTrapRead(p, saved, trap, dma), host, f.host, None);
        ChargesNothing(read, saved.cycleCount, host, f.host, None);
        var r := RunCode(read, host, f.host, None);
        assert r.pending.Some? ==> run.core == Restored(saved, r.core);
        TrapRuns(p, trap(r.core), dma, host, r.host);
    }
  }

  lemma TrapRuns(p: Parts, trap: Code, dma: nat, host: Host, h: HostState)
    ensures var run := RunLive(TakeTrap(p, trap, dma), host, h, None);
            !run.ret.Threw? && (run.ret.Hidden? <==> RunCode(trap, host, h, None).pending.Some?)
  {
    SeqRuns(trap, AfterTrap(p, dma), host, h, None);
  }

  /** The DMA of a step, and the core after it. */
  function DmaRun(p: Parts, c: CoreState, host: Host, h: HostState): CodeRun {
    RunCode(p.serviceDma(p.begin(c)), host, h, None)
  }

  function AfterDmaCore(p: Parts, c: CoreState, host: Host, h: HostState): CoreState {
    var d := DmaRun(p, c, host, h);
    if d.value != 0 then p.finishStep(d.core, d.value) else d.core
  }

  /** The core at the start of the step's instruction, if the step comes to one: DMA did not fail, no
      interrupt was acknowledged, and the CPU neither halts nor sleeps. */
  function InstructionStart(p: Parts, c: CoreState, host: Host, h: HostState): Option<CoreState> {
    var c' := AfterDmaCore(p, c, host, h);
    if DmaRun(p, c, host, h).pending.Some? || p.acknowledge(c').Some?
       || p.halted(p.declined(c')) || p.sleeping(p.declined(c'))
    then None else Some(p.declined(c'))
  }

  /** A whole step hides a bus failure exactly when it comes to an instruction whose TRAP fails to push; a
      step that throws has charged the cycles of its completed DMA and no others, and if it came to an
      instruction, has put back the registers, the EI shadow and the PC-watch count. */
  lemma FailedStep(p: Parts, c: CoreState, host: Host, h: HostState)
    requires p.Lawful()
    ensures var run := RunLive(TryStep(p, c), host, h, None);
            var (d, start) := (DmaRun(p, c, host, h), InstructionStart(p, c, host, h));
            && (run.ret.Hidden? <==> start.Some? && TrapFails(p, start.value, host, d.host))
            && (run.ret.Threw? ==>
                  run.core.cycleCount
                  == (if d.pending.Some? then c
                      else if d.value != 0 then p.finishStep(d.core, d.value) else d.core).cycleCount)
            && (run.ret.Threw? && start.Some? ==> RolledBack(start.value, run.core))
  {
    var (d, c') := (DmaRun(p, c, host, h), AfterDmaCore(p, c, host, h));
    assert p.DmaCharges(c) && p.DmaCharges(p.begin(c)) && p.CheckPointCharges(c');
    ChargesNothing(p.serviceDma(p.begin(c)), c.cycleCount, host, h, None);
    SeqRuns(p.serviceDma(p.begin(c)), AfterDma(p), host, h, None);
    if d.pending.None? {
      CheckPointFails(p, c', d.value, host, d.host);
    }
  }

  /** The same from the interrupt check point on. */
  lemma CheckPointFails(p: Parts, c: CoreState, dma: nat, host: Host, h: HostState)
    requires p.Lawful()
    ensures var run := RunLive(CheckPoint(p, c, dma), host, h, None);
            var start := p.declined(c);
            var instruction := p.acknowledge(c).None? && !p.halted(start) && !p.sleeping(start);
            && (run.ret.Hidden? <==> instruction && TrapFails(p, start, host, h))
            && (run.ret.Threw? ==> run.core.cycleCount == c.cycleCount)
            && (run.ret.Threw? && instruction ==> RolledBack(start, run.core))
  {
    var start := p.declined(c);
    assert p.CheckPointCharges(c) && p.CheckPointCharges(start);
    match p.acknowledge(c)
    case Some(code) =>
      SeqRuns(code, CheckAndFinish(p, dma), host, h, None);
      ChargesNothing(code, c.cycleCount, host, h, None);
    case None =>
      if p.halted(start) {
        SeqRuns(p.haltRead(start), CheckAndFinish(p, dma), host, h, None);
        ChargesNothing(p.haltRead(start), c.cycleCount, host, h, None);
      } else if !p.sleeping(start) {
        FailedInstructionRollsBack(p, start, dma, host, h);
      }
  }

  /** What an instruction runs after its fetch: its handler, or the operand read and the push of a TRAP. */
  ghost function Executed(p: Parts, saved: CoreState, host: Host, h: HostState): CodeRun {
    var f := FetchRun(p, saved, host, h);
    match p.decode(f.core, f.value)
    case Handle(handler) => RunCode(handler, host, f.host, None)
    case Trap(trap) => RunCode(trap(f.core), host, f.host, None)
    case TrapAfterRead(read, trap) =>
      var r := RunCode(read, host, f.host, None);
      RunCode(trap(r.core), host, r.host, None)
  }

  /** What a step comes to after DMA, and leaves the host: an acknowledged interrupt, the read of a halted CPU, the
      three cycles of a sleeping one, or an instruction. */
  ghost function Work(p: Parts, c: CoreState, host: Host, h: HostState): (CoreState, nat) {
    var start := p.declined(c);
    match p.acknowledge(c)
    case Some(code) => (RunCode(code, host, h, None).core, RunCode(code, host, h, None).value)
    case None =>
      if p.halted(start) then
        (RunCode(p.haltRead(start), host, h, None).core, RunCode(p.haltRead(start), host, h, None).value)
      else if p.sleeping(start) then (start, 3)
      else (Executed(p, start, host, h).core, Executed(p, start, host, h).value)
  }

  lemma InstructionSucceeds(p: Parts, saved: CoreState, dma: nat, host: Host, h: HostState)
    requires RunLive(Instruction(p, saved, dma), host, h, None).ret.Returned?
    ensures var (run, x) := (RunLive(Instruction(p, saved, dma), host, h, None), Executed(p, saved, host, h));
            && run.core == p.finishStep(x.core, x.value) && run.ret == Returned(dma + x.value) && run.host == x.host
  {
    var f := FetchRun(p, saved, host, h);
    SeqRuns(p.fetch(p.arm(saved)), AfterFetch(p, saved, dma), host, h, None);
    if f.pending.None? {
      match p.decode(f.core, f.value)
      case Handle(handler) => SeqRuns(handler, AfterHandler(p, saved, dma), host, f.host, None);
      case Trap(trap) => SeqRuns(trap(f.core), AfterTrap(p, dma), host, f.host, None);
      case TrapAfterRead(read, trap) =>
        SeqRuns(read, AfterTrapRead(p, saved, trap, dma), host, f.host, None);
        var r := RunCode(read, host, f.host, None);
        if r.pending.None? {
          SeqRuns(trap(r.core), AfterTrap(p, dma), host, r.host, None);
        }
    }
  }

  lemma CheckPointSucceeds(p: Parts, c: CoreState, dma: nat, host: Host, h: HostState)
    requires RunLive(CheckPoint(p, c, dma), host, h, None).ret.Returned?
    ensures var run := RunLive(CheckPoint(p, c, dma), host, h, None);
            var (core, cycles) := Work(p, c, host, h);
            run.core == p.finishStep(core, cycles) && run.ret == Returned(dma + cycles)
  {
    var start := p.declined(c);
    match p.acknowledge(c)
    case Some(code) => SeqRuns(code, CheckAndFinish(p, dma), host, h, None);
    case None =>
      if p.halted(start) {
        SeqRuns(p.haltRead(start), CheckAndFinish(p, dma), host, h, None);
      } else if !p.sleeping(start) {
        InstructionSucceeds(p, start, dma, host, h);
      }
  }

  /** A step that succeeds has charged and returns the cycles of its DMA and of what it came to after it, each with the
      core that it left. */
  lemma StepSucceeds(p: Parts, c: CoreState, host: Host, h: HostState)
    requires RunLive(TryStep(p, c), host, h, None).ret.Returned?
    ensures var (run, d) := (RunLive(TryStep(p, c), host, h, None), DmaRun(p, c, host, h));
            var charged := if d.value != 0 then p.finishStep(d.core, d.value) else d.core;
            var (core, cycles) := Work(p, charged, host, d.host);
            && d.pending.None? && run.core == p.finishStep(core, cycles) && run.ret == Returned(d.value + cycles)
  {
    var (d, c') := (DmaRun(p, c, host, h), AfterDmaCore(p, c, host, h));
    SeqRuns(p.serviceDma(p.begin(c)), AfterDma(p), host, h, None);
    if d.pending.None? {
      CheckPointSucceeds(p, c', d.value, host, d.host);
    }
  }

  // ------------------------------------------------------------------------- a step that hides one

  /** A machine on which every fetched opcode is undefined: the TRAP pushes two bytes. */
  function TrappingParts(): Parts {
    Parts(c => c, c => Done(c, 0), (c: CoreState, n: nat) => c.(cycleCount := c.cycleCount + n),
          c => None, c => c, c => false, c => false, c => Done(c, 0), c => c,
          c => Ask(MemRead(0), [Done(c, 0xED)], Done(c, 0)),
          (c: CoreState, opcode: nat) => Decoded.Trap((at: CoreState) => Push(at)))
  }

  function Push(c: CoreState): Code {
    var second := Ask(MemWrite(0xFFFE, 0), [Done(c, 6)], Done(c, 6));
    Ask(MemWrite(0xFFFF, 0), [second], second)
  }

  /** A host whose memory answers reads with zero and fails every write. */
  function ReadOnlyHost(e: HostError): Host {
    Host((h: HostState, access: BusAccess) =>
           (h, if access.IsRead() then Success(0) else Failure(e)))
  }

  lemma PushFails(c: CoreState, h: HostState, e: HostError)
    ensures RunCode(Push(c), ReadOnlyHost(e), h, None)
         == CodeRun(c, 6, h, [BusRecord(MemWrite(0xFFFF, 0), None, true)], [], Some(LiveHost(e)))
  {
    var (host, failure) := (ReadOnlyHost(e), Some(LiveHost(e)));
    var second := Ask(MemWrite(0xFFFE, 0), [Done(c, 6)], Done(c, 6));
    calc {
      RunCode(second, host, h, failure);
      RunCode(Done(c, 6), host, h, failure);
      CodeRun(c, 6, h, [], [], failure);
    }
    var record := BusRecord(MemWrite(0xFFFF, 0), None, true);
    assert host.respond(h, MemWrite(0xFFFF, 0)) == (h, Failure(e));
    assert Push(c).After(None) == second;
    assert [record] + [] == [record];
  }

  lemma FetchSucceeds(c: CoreState, h: HostState, e: HostError)
    ensures RunCode(TrappingParts().fetch(c), ReadOnlyHost(e), h, None)
         == CodeRun(c, 0xED, h, [BusRecord(MemRead(0), Some(0), false)], [], None)
  {
    var host := ReadOnlyHost(e);
    var fetch := Ask(MemRead(0), [Done(c, 0xED)], Done(c, 0));
    var record := BusRecord(MemRead(0), Some(0), false);
    assert host.respond(h, MemRead(0)) == (h, Success(0));
    assert fetch.After(Some(0)) == Done(c, 0xED);
    assert RunCode(Done(c, 0xED), host, h, None) == CodeRun(c, 0xED, h, [], [], None);
    assert [record] + [] == [record];
  }

  lemma TrappingIsLawful()
    ensures TrappingParts().Lawful()
  {
    var p := TrappingParts();
    forall c: CoreState
      ensures p.FetchCharges(c)
    {
      assert Charges(Done(c, 0xED), c.cycleCount) && Charges(Done(c, 0), c.cycleCount);
    }
  }

  /** The whole step of that machine, as a strategy. */
  lemma TrappingStep(c: CoreState)
    ensures var last := Finish(c.(cycleCount := c.cycleCount + 6), 6);
            var second := Call(MemWrite(0xFFFE, 0), [last], last);
            var trapped := IfFailed(c, Call(MemWrite(0xFFFF, 0), [second], second));
            TryStep(TrappingParts(), c) == IfFailed(c, Call(MemRead(0), [trapped], trapped))
  {
    var p := TrappingParts();
    var last := Finish(c.(cycleCount := c.cycleCount + 6), 6);
    var second := Call(MemWrite(0xFFFE, 0), [last], last);
    var trapped := IfFailed(c, Call(MemWrite(0xFFFF, 0), [second], second));
    var pushed := Ask(MemWrite(0xFFFE, 0), [Done(c, 6)], Done(c, 6));
    assert Seq(Done(c, 6), AfterTrap(p, 0)) == last;
    assert Seq(pushed, AfterTrap(p, 0)) == second;
    assert Seq(Push(c), AfterTrap(p, 0)) == Call(MemWrite(0xFFFF, 0), [second], second);
    assert Restored(c, c) == c;
    forall o: nat
      ensures AfterFetch(p, c, 0)(c, o) == trapped
    {
      assert Execute(p, c, c, p.decode(c, o), 0) == TakeTrap(p, Push(c), 0);
    }
    assert Seq(Done(c, 0xED), AfterFetch(p, c, 0)) == trapped;
    assert Seq(Done(c, 0), AfterFetch(p, c, 0)) == trapped;
    assert Instruction(p, c, 0) == Call(MemRead(0), [trapped], trapped);
    calc {
      TryStep(p, c);
      Seq(Done(c, 0), AfterDma(p));
      IfFailed(c, CheckPoint(p, c, 0));
      IfFailed(c, Instruction(p, c, 0));
    }
  }

  lemma TrapInstruction(c: CoreState, h: HostState, e: HostError)
    ensures var run := RunLive(Instruction(TrappingParts(), c, 0), ReadOnlyHost(e), h, None);
            && run.ret == Hidden(6, LiveHost(e)) && run.host == h
            && run.records == [BusRecord(MemRead(0), Some(0), false),
                               BusRecord(MemWrite(0xFFFF, 0), None, true)]
  {
    hide ReadOnlyHost, Push;
    var (p, host) := (TrappingParts(), ReadOnlyHost(e));
    FetchSucceeds(c, h, e);
    PushFails(c, h, e);
    SeqRuns(p.fetch(p.arm(c)), AfterFetch(p, c, 0), host, h, None);
    SeqRuns(Push(c), AfterTrap(p, 0), host, h, None);
    calc {
      AfterFetch(p, c, 0)(c, 0xED);
      IfFailed(Restored(c, c), Execute(p, c, c, p.decode(c, 0xED), 0));
      IfFailed(Restored(c, c), TakeTrap(p, Push(c), 0));
    }
  }

  /** On that machine a step fetches, loses the first byte of its push, makes no further call, and returns
      the cycles of a TRAP as if nothing had failed; the step after it throws the failure. */
  lemma TrapHidesFailure(c: CoreState, h: HostState, e: HostError)
    ensures TrappingParts().Lawful()
    ensures var run := RunLive(TryStep(TrappingParts(), c), ReadOnlyHost(e), h, None);
            && run.ret == Hidden(6, LiveHost(e)) && run.host == h
            && run.records == [BusRecord(MemRead(0), Some(0), false),
                               BusRecord(MemWrite(0xFFFF, 0), None, true)]
            && RunLive(TryStep(TrappingParts(), run.core), ReadOnlyHost(e), h, Some(LiveHost(e))).ret
               == Threw(LiveHost(e))
  {
    hide ReadOnlyHost, Push, Instruction;
    var (p, host) := (TrappingParts(), ReadOnlyHost(e));
    TrappingIsLawful();
    TrapInstruction(c, h, e);
    calc {
      TryStep(p, c);
      Seq(Done(c, 0), AfterDma(p));
      IfFailed(c, CheckPoint(p, c, 0));
      IfFailed(c, Instruction(p, c, 0));
    }
    var run := RunLive(TryStep(p, c), host, h, None);
    HiddenFailureSurfacesNext(p, run.core, host, h, LiveHost(e));
  }

  /** A hidden failure is thrown by the next step, without a bus call. */
  lemma HiddenFailureSurfacesNext(p: Parts, c: CoreState, host: Host, h: HostState, error: BusError)
    ensures var run := RunLive(TryStep(p, c), host, h, Some(error));
            run.ret == Threw(error) && run.records == [] && run.host == h
  {
    var dma := p.serviceDma(p.begin(c));
    PendingStays(dma, host, h, error);
    SeqRuns(dma, AfterDma(p), host, h, Some(error));
  }

  /** A failure that playback reports lies at or ahead of the cursor it started from. */
  lemma {:induction false} PlayedFailureIsAhead(s: Step, records: seq<BusRecord>, cursor: nat, from: nat,
                                                pending: Option<BusError>)
    requires from <= cursor
    requires pending.Some? && pending.value.RecordedHostFailure? ==> from <= pending.value.record
    ensures var ret := RunPlay(s, records, cursor, pending).ret;
            ret.Threw? && ret.error.RecordedHostFailure? ==> from <= ret.error.record
    decreases s
  {
    match s
    case Call(access, _, _) =>
      if pending.Some? {
        PlayedFailureIsAhead(s.After(None), records, cursor, from, pending);
      } else {
        var (got, cursor') := PlayAccess(records, cursor, access);
        PlayedFailureIsAhead(s.After(Reply(got)), records, cursor', from, Pending(got));
      }
    case Guarded(skipped, next) =>
      PlayedFailureIsAhead(if pending.Some? then skipped else next, records, cursor, from, pending);
    case Report(_, next) => PlayedFailureIsAhead(next, records, cursor, from, pending);
    case IfFailed(_, next) =>
      if pending.None? {
        PlayedFailureIsAhead(next, records, cursor, from, pending);
      }
    case Finish(_, _) =>
  }

  /** Why recording excludes hidden failures: the step after one is logged as failing at the record
      before `cursor`, and a replay that starts from a checkpoint between the two, where the pending
      error is forgotten, never agrees with that log entry. */
  lemma CheckpointForgetsHiddenFailure(p: Parts, c: CoreState, host: Host, h: HostState, e: HostError,
                                       records: seq<BusRecord>, cursor: nat)
    requires 0 < cursor
    ensures var live := RunLive(TryStep(p, c), host, h, Some(LiveHost(e)));
            && live.ret == Threw(LiveHost(e)) && live.records == []
            && OutcomeOf(live.ret, cursor) == HostFailure(cursor - 1)
            && !Agrees(OutcomeOf(live.ret, cursor), RunPlay(TryStep(p, c), records, cursor, None).ret)
  {
    HiddenFailureSurfacesNext(p, c, host, h, LiveHost(e));
    PlayedFailureIsAhead(TryStep(p, c), records, cursor, cursor, None);
  }
}
