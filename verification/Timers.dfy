/** The programmable reload timers (peripherals/prt.rs): the tick loop and its closed form. */
module Timers {
  import opened Basics
  import opened Registers8

  /** The data and reload registers of one channel. */
  datatype Timer = Timer(low: byte, high: byte, reloadLow: byte, reloadHigh: byte)
  {
    function Count(): nat {
      low + 256 * high
    }

    function Reload(): nat {
      reloadLow + 256 * reloadHigh
    }
  }

  /** The timer control register and both channels. */
  datatype Prt = Prt(tcr: Bits, timer0: Timer, timer1: Timer)
  {
    function Of(second: bool): Timer {
      if second then timer1 else timer0
    }

    predicate Enabled(second: bool) {
      if second then tcr.b1 else tcr.b0
    }

    predicate Flag(second: bool) {
      if second then tcr.b7 else tcr.b6
    }
  }

  /** One tick of one channel. */
  function TickChannel(p: Prt, second: bool): Prt {
    if !p.Enabled(second) then p
    else
      var t := p.Of(second);
      var next := if t.Count() == 0 then t.Reload() else t.Count() - 1;
      var tcr := if t.Count() != 1 then p.tcr
                 else if second then p.tcr.(b7 := true) else p.tcr.(b6 := true);
      var t' := t.(low := next % 256, high := next / 256);
      if second then p.(tcr := tcr, timer1 := t') else p.(tcr := tcr, timer0 := t')
  }

  function Tick(p: Prt): Prt {
    TickChannel(TickChannel(p, false), true)
  }

  function Ticks(p: Prt, n: nat): Prt
    decreases n
  {
    if n == 0 then p else Ticks(Tick(p), n - 1)
  }

  // --------------------------------------------------------------------------------- closed form

  /** The counter after `n` enabled ticks from `c` with reload value `r`. */
  function After(c: nat, r: nat, n: nat): int {
    if n <= c then c - n else r - (n - c - 1) % (r + 1)
  }

  /** The counter was decremented to zero within `n` enabled ticks. */
  predicate Fired(c: nat, r: nat, n: nat) {
    (c > 0 && n >= c) || (r > 0 && n >= c + 1 + r)
  }

  lemma ModUnique(a: nat, m: nat, q: nat, r: nat)
    requires 0 < m && a == q * m + r && r < m
    ensures a % m == r
  {
    var p := a / m;
    assert a == p * m + a % m;
    if p < q {
      Product(p + 1, q, m);
    } else if q < p {
      Product(q + 1, p, m);
    }
  }

  lemma Product(a: nat, b: nat, m: nat)
    requires a <= b
    ensures a * m <= b * m
  {
  }

  /** Counting up modulo `m`. */
  lemma ModNext(k: nat, m: nat)
    requires 0 < m
    ensures (k + 1) % m == if k % m == m - 1 then 0 else k % m + 1
  {
    var q := k / m;
    assert k == q * m + k % m;
    if k % m == m - 1 {
      assert (q + 1) * m == q * m + m;
      ModUnique(k + 1, m, q + 1, 0);
    } else {
      ModUnique(k + 1, m, q, k % m + 1);
    }
  }

  /** One more tick of the closed form. */
  lemma AfterNext(c: nat, r: nat, n: nat)
    ensures After(c, r, n) >= 0
    ensures After(c, r, n + 1) == if After(c, r, n) == 0 then r else After(c, r, n) - 1
    ensures Fired(c, r, n + 1) <==> Fired(c, r, n) || After(c, r, n) == 1
  {
    if n > c {
      ModNext(n - c - 1, r + 1);
      if n - c - 1 == r - 1 {
        ModUnique(n - c - 1, r + 1, 0, r - 1);
      }
      ModAtMost(n - c - 1, r + 1);
    } else if n == c {
      ModUnique(0, r + 1, 0, 0);
    }
  }

  lemma ModAtMost(k: nat, m: nat)
    requires 0 < m
    ensures k % m <= k
  {
    Product(0, k / m, m);
    assert k == (k / m) * m + k % m;
  }

  // ------------------------------------------------------------------ the loop meets the closed form

  /** What the loop reads or writes of a channel, as numbers. */
  datatype View = View(enabled: bool, count: nat, reload: nat, flag: bool)

  function ViewOf(p: Prt, second: bool): View {
    View(p.Enabled(second), p.Of(second).Count(), p.Of(second).Reload(), p.Flag(second))
  }

  function TickView(v: View): View {
    if v.enabled then
      v.(count := if v.count == 0 then v.reload else v.count - 1, flag := v.flag || v.count == 1)
    else v
  }

  lemma TickChannelFacts(p: Prt, second: bool)
    ensures ViewOf(TickChannel(p, second), second) == TickView(ViewOf(p, second))
    ensures ViewOf(TickChannel(p, second), !second) == ViewOf(p, !second)
  {
  }

  lemma TickFacts(p: Prt, second: bool)
    ensures ViewOf(Tick(p), second) == TickView(ViewOf(p, second))
  {
    TickChannelFacts(p, false);
    TickChannelFacts(TickChannel(p, false), true);
  }

  /** The closed form of a channel after `n` ticks. */
  function ViewAfter(v: View, n: nat): View {
    AfterNext(v.count, v.reload, n);
    if v.enabled then v.(count := After(v.count, v.reload, n),
                         flag := v.flag || Fired(v.count, v.reload, n))
    else v
  }

  lemma ViewNext(v: View, n: nat)
    ensures ViewAfter(v, n + 1) == TickView(ViewAfter(v, n))
    ensures ViewAfter(v, 0) == v
  {
    AfterNext(v.count, v.reload, n);
  }

  /** After `n` ticks of the loop each channel is where its closed form says, and its interrupt flag was
      raised exactly when the counter was decremented to zero; a disabled channel stands still. */
  lemma {:induction false} TicksMeetClosedForm(p: Prt, second: bool, n: nat)
    ensures ViewOf(Ticks(p, n), second) == ViewAfter(ViewOf(p, second), n)
    decreases n
  {
    var v := ViewOf(p, second);
    if n == 0 {
      ViewNext(v, 0);
    } else {
      TicksLast(p, n - 1);
      TicksMeetClosedForm(p, second, n - 1);
      TickFacts(Ticks(p, n - 1), second);
      ViewNext(v, n - 1);
    }
  }

  lemma {:induction false} TicksAdd(p: Prt, a: nat, b: nat)
    ensures Ticks(p, a + b) == Ticks(Ticks(p, a), b)
    decreases a
  {
    if a > 0 {
      TicksAdd(Tick(p), a - 1, b);
    }
  }

  lemma TicksLast(p: Prt, n: nat)
    ensures Ticks(p, n + 1) == Tick(Ticks(p, n))
  {
    TicksAdd(p, n, 1);
    assert Ticks(Tick(Ticks(p, n)), 0) == Tick(Ticks(p, n));
  }
}
