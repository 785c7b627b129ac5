/** A ledger of the bytes that pass through one direction of a serial channel: which entered, which left, and
    which were lost on the way. */
module Ledgers {
  import opened Registers8

  /** The bytes that were not lost, oldest first. */
  function Survivors(entered: seq<Bits>, lost: set<nat>): (s: seq<Bits>)
    ensures |s| <= |entered|
  {
    if entered == [] then []
    else
      var n := |entered| - 1;
      Survivors(entered[..n], lost) + if n in lost then [] else [entered[n]]
  }

  /** The index of survivor `k` among all the bytes that entered. */
  function IndexOf(entered: seq<Bits>, lost: set<nat>, k: nat): (i: nat)
    requires k < |Survivors(entered, lost)|
    ensures i < |entered| && i !in lost && entered[i] == Survivors(entered, lost)[k]
  {
    var n := |entered| - 1;
    if k < |Survivors(entered[..n], lost)| then IndexOf(entered[..n], lost, k) else n
  }

  /** Bytes that have not entered cannot be missed. */
  lemma {:induction false} LaterLossUnseen(entered: seq<Bits>, lost: set<nat>, i: nat)
    requires |entered| <= i
    ensures Survivors(entered, lost + {i}) == Survivors(entered, lost)
    decreases |entered|
  {
    if entered != [] {
      LaterLossUnseen(entered[..|entered| - 1], lost, i);
    }
  }

  /** Losing survivor `k` takes that byte out and leaves the others in order. */
  lemma {:induction false} OneLess(entered: seq<Bits>, lost: set<nat>, k: nat)
    requires k < |Survivors(entered, lost)|
    ensures var s := Survivors(entered, lost);
            Survivors(entered, lost + {IndexOf(entered, lost, k)}) == s[..k] + s[k + 1..]
    decreases |entered|
  {
    var n := |entered| - 1;
    var (before, s) := (Survivors(entered[..n], lost), Survivors(entered, lost));
    var last := if n in lost then [] else [entered[n]];
    assert s == before + last;
    if k < |before| {
      OneLess(entered[..n], lost, k);
      assert s[..k] + s[k + 1..] == before[..k] + before[k + 1..] + last;
    } else {
      LaterLossUnseen(entered[..n], lost, n);
      assert s[..k] + s[k + 1..] == before;
    }
  }

  /** `lost` holds the indices in `entered` of the bytes that were lost. */
  datatype Ledger = Ledger(entered: seq<Bits>, departed: seq<Bits>, lost: set<nat>)
  {
    function Enter(b: Bits): Ledger {
      this.(entered := entered + [b])
    }

    function Depart(b: Bits): Ledger {
      this.(departed := departed + [b])
    }

    /** Byte `k` of those on their way. */
    function InFlight(k: nat): nat
      requires |departed| + k < |Survivors(entered, lost)|
    {
      IndexOf(entered, lost, |departed| + k)
    }

    /** Of the bytes on their way, `count` are lost, from byte `from` on. */
    function Lose(from: nat, count: nat): Ledger
      decreases count
    {
      if count == 0 || |Survivors(entered, lost)| <= |departed| + from then this
      else this.(lost := lost + {InFlight(from)}).Lose(from, count - 1)
    }

    /** The bytes that entered and were not lost are those that left and those on their way, in order. */
    ghost predicate Balances(inFlight: seq<Bits>) {
      && (forall i :: i in lost ==> i < |entered|)
      && departed + inFlight == Survivors(entered, lost)
    }
  }

  const EMPTY := Ledger([], [], {})

  lemma EnterBalances(l: Ledger, f: seq<Bits>, b: Bits)
    requires l.Balances(f)
    ensures l.Enter(b).Balances(f + [b])
  {
    assert (l.entered + [b])[..|l.entered|] == l.entered;
    assert l.departed + (f + [b]) == l.departed + f + [b];
  }

  lemma DepartBalances(l: Ledger, f: seq<Bits>)
    requires l.Balances(f) && f != []
    ensures l.Depart(f[0]).Balances(f[1..])
  {
    assert l.departed + [f[0]] + f[1..] == l.departed + f;
  }

  function Cut(f: seq<Bits>, from: nat, count: nat): seq<Bits>
    requires from + count <= |f|
  {
    f[..from] + f[from + count..]
  }

  lemma LoseOne(l: Ledger, f: seq<Bits>, from: nat)
    requires l.Balances(f) && from < |f|
    ensures |l.departed| + from < |Survivors(l.entered, l.lost)|
    ensures var i := l.InFlight(from);
            i !in l.lost && l.(lost := l.lost + {i}).Balances(Cut(f, from, 1))
  {
    OneLess(l.entered, l.lost, |l.departed| + from);
    var (s, k) := (l.departed + f, |l.departed| + from);
    assert l.departed + Cut(f, from, 1) == s[..k] + s[k + 1..];
  }

  /** A loss takes exactly the named bytes out of those on their way and notes each of them. */
  lemma {:induction false} LoseBalances(l: Ledger, f: seq<Bits>, from: nat, count: nat)
    requires l.Balances(f) && from + count <= |f|
    ensures var m := l.Lose(from, count);
            && m.Balances(Cut(f, from, count))
            && m.entered == l.entered && m.departed == l.departed
            && l.lost <= m.lost && |m.lost| == |l.lost| + count
    decreases count
  {
    hide Survivors, Ledger.Balances;
    if count == 0 {
      assert Cut(f, from, 0) == f;
    } else {
      LoseOne(l, f, from);
      var (m, g) := (l.(lost := l.lost + {l.InFlight(from)}), Cut(f, from, 1));
      LoseBalances(m, g, from, count - 1);
      assert Cut(g, from, count - 1) == Cut(f, from, count);
    }
  }

  /** What has left is the beginning of what entered and was not lost. */
  lemma DepartedInOrder(l: Ledger, f: seq<Bits>)
    requires l.Balances(f)
    ensures l.departed <= Survivors(l.entered, l.lost)
    ensures |l.departed| + |f| + |l.lost| == |l.entered|
  {
    AllAccounted(l.entered, l.lost);
  }

  /** Every byte that entered is a survivor or lost. */
  lemma {:induction false} AllAccounted(entered: seq<Bits>, lost: set<nat>)
    requires forall i :: i in lost ==> i < |entered|
    ensures |Survivors(entered, lost)| + |lost| == |entered|
    decreases |entered|
  {
    if entered == [] {
      assert lost == {};
    } else {
      var n := |entered| - 1;
      AllAccounted(entered[..n], lost - {n});
      if n in lost {
        LaterLossUnseen(entered[..n], lost - {n}, n);
        assert lost - {n} + {n} == lost;
      } else {
        assert lost - {n} == lost;
      }
    }
  }
}
