/** What the event ring shows of a step under a memory watch (debug.rs, access.rs:50-88). */
module WriteSearch {
  import opened Basics
  import opened Machine
  import opened Transcript
  import opened Journals

  predicate InWindow(phys: nat, base: nat, size: nat) {
    base <= phys < base + size
  }

  /** The first write into the window among the notes of a step, as an event. */
  function FirstWrite(notes: seq<Note>, base: nat, size: nat): Option<Event> {
    if notes == [] then None
    else if notes[0].GuestWrite? && InWindow(notes[0].phys, base, size) then
      Some(MemWriteEvent(notes[0].cycle, notes[0].pc, notes[0].phys, notes[0].val))
    else FirstWrite(notes[1..], base, size)
  }

  predicate IsHit(event: Event, base: nat, size: nat) {
    event.MemWriteEvent? && InWindow(event.phys, base, size)
  }

  /** The probe's search of the drained events. */
  function FirstHit(events: seq<Event>, base: nat, size: nat): Option<Event> {
    if events == [] then None
    else if IsHit(events[0], base, size) then Some(events[0])
    else FirstHit(events[1..], base, size)
  }

  /** The events the notes turn into under the watches of `d`. */
  function Seen(d: Debug, notes: seq<Note>): seq<Event> {
    if notes == [] then []
    else
      match d.EventOf(notes[0])
      case Some(event) => [event] + Seen(d, notes[1..])
      case None => Seen(d, notes[1..])
  }

  /** The watches and the capacity stay; the ring is exact while it has room and says so when not. */
  lemma {:induction false} RingIsExactOrSaysSo(d: Debug, w: Debug, notes: seq<Note>)
    requires d.watches == w.watches && |d.events| <= d.capacity
    ensures var r := ObserveAll(d, notes);
            && r.watches == d.watches && r.capacity == d.capacity && |r.events| <= r.capacity
            && (|d.events| + |Seen(w, notes)| <= d.capacity ==>
                  r.events == d.events + Seen(w, notes) && r.lost == d.lost)
            && (|d.events| + |Seen(w, notes)| > d.capacity || d.lost ==> r.lost)
    decreases |notes|
  {
    if notes != [] {
      var e := d.EventOf(notes[0]);
      assert e == w.EventOf(notes[0]);
      RingIsExactOrSaysSo(d.Observe(notes[0]), w, notes[1..]);
      if e.Some? && |d.events| + |Seen(w, notes)| <= d.capacity {
        assert d.events + [e.value] + Seen(w, notes[1..]) == d.events + Seen(w, notes);
      }
    }
  }

  function Newest(events: seq<Event>, n: nat): seq<Event> {
    if |events| <= n then events else events[|events| - n..]
  }

  /** The ring holds the newest events, and the flag says exactly whether some were lost. */
  lemma {:induction false} RingKeepsNewest(d: Debug, notes: seq<Note>)
    requires |d.events| <= d.capacity
    ensures var r := ObserveAll(d, notes);
            && r.events == Newest(d.events + Seen(d, notes), d.capacity)
            && (r.lost <==> d.lost || |d.events| + |Seen(d, notes)| > d.capacity)
    decreases |notes|
  {
    if notes == [] {
      assert d.events + [] == d.events;
    } else {
      var (next, e) := (d.Observe(notes[0]), d.EventOf(notes[0]));
      RingKeepsNewest(next, notes[1..]);
      SeenAlike(d, next, notes[1..]);
      if e.Some? {
        var (all, rest) := (d.events + Seen(d, notes), Seen(d, notes[1..]));
        assert all == d.events + [e.value] + rest;
        if |d.events| == d.capacity && d.capacity > 0 {
          assert next.events + rest == all[1..];
        }
      }
    }
  }

  lemma {:induction false} SeenAlike(d: Debug, w: Debug, notes: seq<Note>)
    requires d.watches == w.watches
    ensures Seen(d, notes) == Seen(w, notes)
    decreases |notes|
  {
    if notes != [] {
      SeenAlike(d, w, notes[1..]);
    }
  }

  /** A memory access becomes an event, with its own cycle, place and byte, exactly if a watch for its direction covers
      its address; what is announced always does. */
  lemma EventsTell(d: Debug, note: Note)
    ensures note.Announce? ==> d.EventOf(note) == Some(Other(note.what))
    ensures note.GuestRead? ==>
              d.EventOf(note) == if exists i :: 0 <= i < |d.watches| && d.watches[i].kind != WatchWrite
                                                && InWindow(note.phys, d.watches[i].base, d.watches[i].size)
                                 then Some(MemReadEvent(note.cycle, note.pc, note.phys, note.val)) else None
    ensures note.GuestWrite? ==>
              d.EventOf(note) == if exists i :: 0 <= i < |d.watches| && d.watches[i].kind != WatchRead
                                                && InWindow(note.phys, d.watches[i].base, d.watches[i].size)
                                 then Some(MemWriteEvent(note.cycle, note.pc, note.phys, note.val)) else None
  {
    if note.GuestRead? && d.Watched(note.phys, false) {
      var i :| 0 <= i < |d.watches| && d.watches[i].Matches(note.phys, false);
      assert InWindow(note.phys, d.watches[i].base, d.watches[i].size);
    }
    if note.GuestWrite? && d.Watched(note.phys, true) {
      var i :| 0 <= i < |d.watches| && d.watches[i].Matches(note.phys, true);
      assert InWindow(note.phys, d.watches[i].base, d.watches[i].size);
    }
  }

  /** A write watch on exactly this window. */
  predicate WatchesWindow(d: Debug, base: nat, size: nat) {
    exists i :: 0 <= i < |d.watches| && d.watches[i].kind != WatchRead
             && d.watches[i].base == base && d.watches[i].size == size
  }

  /** Under a write watch on the window the first hit among the events is the first write. */
  lemma {:induction false} FirstHitIsFirstWrite(d: Debug, notes: seq<Note>, base: nat, size: nat)
    requires WatchesWindow(d, base, size)
    ensures FirstHit(Seen(d, notes), base, size) == FirstWrite(notes, base, size)
    decreases |notes|
  {
    if notes != [] {
      FirstHitIsFirstWrite(d, notes[1..], base, size);
      var i :| 0 <= i < |d.watches| && d.watches[i].kind != WatchRead
            && d.watches[i].base == base && d.watches[i].size == size;
      assert notes[0].GuestWrite? && InWindow(notes[0].phys, base, size) ==>
          d.watches[i].Matches(notes[0].phys, true);
    }
  }

  /** `FirstWrite` finds a write exactly when there is one. */
  lemma {:induction false} FirstWriteExists(notes: seq<Note>, base: nat, size: nat)
    ensures FirstWrite(notes, base, size).Some?
       <==> exists i :: 0 <= i < |notes| && notes[i].GuestWrite? && InWindow(notes[i].phys, base, size)
    decreases |notes|
  {
    if notes != [] {
      FirstWriteExists(notes[1..], base, size);
      assert forall i :: 0 < i < |notes| ==> notes[i] == notes[1..][i - 1];
    }
  }

  /** The notes of attempt `k` of a run. */
  ghost function NotesOf(cpu: Cpu, j: Journal, h: seq<Snap>, k: nat): seq<Note> {
    if k < |j.attempts| && 0 < Index(j.attempts[k].end) <= |h|
    then PlayStep(cpu, j, h[Index(j.attempts[k].end) - 1]).notes
    else []
  }

  datatype WriteHit = WriteHit(attemptedStep: nat, event: Event)

  /** What a write search may come to. `Incomplete` is the error for lost events. */
  datatype Answer = NoWrite | Found(hit: WriteHit) | Incomplete

  /** Under the watches of `w`, attempt `k` fills the ring without overflowing it. */
  ghost predicate Fits(cpu: Cpu, j: Journal, h: seq<Snap>, w: Debug, k: nat) {
    |Seen(w, NotesOf(cpu, j, h, k))| <= w.capacity
  }

  /** Attempt `k` neither writes into the window nor overflows the ring. */
  ghost predicate Quiet(cpu: Cpu, j: Journal, h: seq<Snap>, w: Debug, base: nat, size: nat, k: nat) {
    FirstWrite(NotesOf(cpu, j, h, k), base, size) == None && Fits(cpu, j, h, w, k)
  }

  /** The right answer to a search of attempts `from .. upTo`: the first attempt that is not quiet decides. */
  ghost predicate Answers(cpu: Cpu, j: Journal, h: seq<Snap>, w: Debug, base: nat, size: nat,
                          from: nat, upTo: nat, answer: Answer)
  {
    match answer
    case NoWrite => forall k :: from <= k < upTo ==> Quiet(cpu, j, h, w, base, size, k)
    case Found(hit) =>
      && from <= hit.attemptedStep < upTo && Fits(cpu, j, h, w, hit.attemptedStep)
      && (forall k :: from <= k < hit.attemptedStep ==> Quiet(cpu, j, h, w, base, size, k))
      && FirstWrite(NotesOf(cpu, j, h, hit.attemptedStep), base, size) == Some(hit.event)
    case Incomplete =>
      exists n :: from <= n < upTo && !Fits(cpu, j, h, w, n)
               && forall k :: from <= k < n ==> Quiet(cpu, j, h, w, base, size, k)
  }

  predicate Writes(notes: seq<Note>, base: nat, size: nat) {
    exists i :: 0 <= i < |notes| && notes[i].GuestWrite? && InWindow(notes[i].phys, base, size)
  }

  /** The answers in plain terms: no attempt of the range completed a write into the window; or the hit
      is in the earliest one that did, and is such a write. */
  lemma AnswerMeans(cpu: Cpu, j: Journal, h: seq<Snap>, w: Debug, base: nat, size: nat,
                    from: nat, upTo: nat, answer: Answer)
    requires Answers(cpu, j, h, w, base, size, from, upTo, answer)
    ensures answer.NoWrite? ==>
              forall k :: from <= k < upTo ==> !Writes(NotesOf(cpu, j, h, k), base, size)
    ensures answer.Found? ==>
              && Writes(NotesOf(cpu, j, h, answer.hit.attemptedStep), base, size)
              && IsHit(answer.hit.event, base, size)
              && forall k :: from <= k < answer.hit.attemptedStep ==>
                   !Writes(NotesOf(cpu, j, h, k), base, size)
  {
    match answer
    case NoWrite =>
      forall k | from <= k < upTo
        ensures !Writes(NotesOf(cpu, j, h, k), base, size)
      {
        assert Quiet(cpu, j, h, w, base, size, k);
        FirstWriteExists(NotesOf(cpu, j, h, k), base, size);
      }
    case Found(hit) =>
      FirstWriteExists(NotesOf(cpu, j, h, hit.attemptedStep), base, size);
      FirstWriteIsHit(NotesOf(cpu, j, h, hit.attemptedStep), base, size);
      forall k | from <= k < hit.attemptedStep
        ensures !Writes(NotesOf(cpu, j, h, k), base, size)
      {
        assert Quiet(cpu, j, h, w, base, size, k);
        FirstWriteExists(NotesOf(cpu, j, h, k), base, size);
      }
    case Incomplete =>
  }

  lemma {:induction false} FirstWriteIsHit(notes: seq<Note>, base: nat, size: nat)
    requires FirstWrite(notes, base, size).Some?
    ensures IsHit(FirstWrite(notes, base, size).value, base, size)
    decreases |notes|
  {
    if !(notes[0].GuestWrite? && InWindow(notes[0].phys, base, size)) {
      FirstWriteIsHit(notes[1..], base, size);
    }
  }

  /** The notes of a recorded attempt are those its live step reported. */
  lemma NotesAreLive(cpu: Cpu, j: Journal, h: seq<Snap>, host: Host, inner: HostState)
    requires Recorded(cpu, j, h)
    requires !RunLive(cpu.step(h[|h| - 1].state.core), host, inner, None).ret.Hidden?
    ensures var last := h[|h| - 1];
            var run := RunLive(cpu.step(last.state.core), host, inner, None);
            NotesOf(cpu, LiveJournal(cpu, j, last, run), h + [LiveSnap(cpu, j, last, run)],
                    |j.attempts|) == run.notes
  {
    var last := h[|h| - 1];
    var step := cpu.step(last.state.core);
    var run := RunLive(step, host, inner, None);
    ChainIndex(cpu, j, h, |h| - 1);
    PlaybackRepeatsLive(step, host, inner, j.records, []);
    assert j.records + run.records + [] == j.records + run.records;
  }

  /** They stay the same however the recording goes on. */
  lemma NotesStay(cpu: Cpu, j: Journal, h: seq<Snap>, j': Journal, h': seq<Snap>, k: nat)
    requires cpu.Lawful() && Recorded(cpu, j, h) && k < |j.attempts|
    requires |h| <= |h'| && h == h'[..|h|]
    requires Prefix(j.records, j'.records) && Prefix(j.attempts, j'.attempts)
    ensures NotesOf(cpu, j', h', k) == NotesOf(cpu, j, h, k)
  {
    ChainIndex(cpu, j, h, |h| - 1);
    ChainReaches(cpu, j, h, k + 1, |h| - 1);
    var i := Index(j.attempts[k].end) - 1;
    ChainIndex(cpu, j, h, i);
    EntryGrows(cpu, j, h, i);
    ChainSound(cpu, j, h, i);
    if !Due(j, h[i].pos) {
      var more := j'.records[|j.records|..];
      assert j'.records == j.records + more;
      PlaybackIgnoresSuffix(cpu.step(h[i].state.core), j.records, more, h[i].pos.busRecords, None);
    } else {
      SameBoundary(cpu, j, h, i);
    }
  }
}
