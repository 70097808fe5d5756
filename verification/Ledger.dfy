/** The ledger of a handle: every message the library has taken from the
    kernel, in kernel order, each with what became of it. */
module Ledgers {
  /** Kept messages go to receivers in order; a claimed one went to the
      synchronous call that waited for it; a lost one was dropped. */
  datatype Fate = Kept | Claimed | Lost

  datatype Entry<M> = Entry(message: M, fate: Fate)

  type Ledger<M> = seq<Entry<M>>

  /** All messages of the ledger. */
  function Messages<M>(l: Ledger<M>): (r: seq<M>)
    ensures |r| == |l|
  {
    if l == [] then [] else Messages(l[..|l| - 1]) + [l[|l| - 1].message]
  }

  /** The messages meant for receivers. */
  function Kepts<M>(l: Ledger<M>): (r: seq<M>)
    ensures |r| <= |l|
  {
    if l == [] then []
    else if l[|l| - 1].fate == Kept then Kepts(l[..|l| - 1]) + [l[|l| - 1].message]
    else Kepts(l[..|l| - 1])
  }

  function Losses<M>(l: Ledger<M>): nat {
    if l == [] then 0 else Losses(l[..|l| - 1]) + if l[|l| - 1].fate == Lost then 1 else 0
  }

  function Claims<M>(l: Ledger<M>): nat {
    if l == [] then 0 else Claims(l[..|l| - 1]) + if l[|l| - 1].fate == Claimed then 1 else 0
  }

  /** Hands kept message number r over to a call. */
  function Claim<M>(l: Ledger<M>, r: nat): (l': Ledger<M>)
    requires r < |Kepts(l)|
    ensures |l'| == |l|
  {
    var front, last := l[..|l| - 1], l[|l| - 1];
    if last.fate != Kept then Claim(front, r) + [last]
    else if r == |Kepts(front)| then front + [Entry(last.message, Claimed)]
    else Claim(front, r) + [last]
  }

  lemma Append<M>(l: Ledger<M>, e: Entry<M>)
    ensures Messages(l + [e]) == Messages(l) + [e.message]
    ensures Kepts(l + [e]) == if e.fate == Kept then Kepts(l) + [e.message] else Kepts(l)
    ensures Losses(l + [e]) == Losses(l) + if e.fate == Lost then 1 else 0
    ensures Claims(l + [e]) == Claims(l) + if e.fate == Claimed then 1 else 0
  {
    assert (l + [e])[..|l|] == l;
  }

  /** A claim takes exactly one message away from the receivers, keeps the
      order of the rest, and does not touch the kernel's order. */
  lemma {:induction false} ClaimRemoves<M>(l: Ledger<M>, r: nat)
    requires r < |Kepts(l)|
    ensures Kepts(Claim(l, r)) == Kepts(l)[..r] + Kepts(l)[r + 1..]
    ensures Messages(Claim(l, r)) == Messages(l)
    ensures Losses(Claim(l, r)) == Losses(l) && Claims(Claim(l, r)) == Claims(l) + 1
  {
    var front, last := l[..|l| - 1], l[|l| - 1];
    if last.fate == Kept && r == |Kepts(front)| {
      Append(front, Entry(last.message, Claimed));
    } else {
      ClaimRemoves(front, r);
      Append(Claim(front, r), last);
      if last.fate == Kept {
        DropLast(Kepts(front), last.message, r);
      }
    }
  }

  lemma DropLast<M>(s: seq<M>, m: M, r: nat)
    requires r < |s|
    ensures (s + [m])[..r] + (s + [m])[r + 1..] == s[..r] + s[r + 1..] + [m]
  {
  }

  /** The message handed over is the r-th kept one. */
  lemma {:induction false} ClaimedEntry<M>(l: Ledger<M>, r: nat) returns (i: nat)
    requires r < |Kepts(l)|
    ensures i < |l| && l[i] == Entry(Kepts(l)[r], Kept)
    ensures Claim(l, r) == l[i := Entry(Kepts(l)[r], Claimed)]
  {
    var front, last := l[..|l| - 1], l[|l| - 1];
    assert l == front + [last];
    if last.fate == Kept && r == |Kepts(front)| {
      i := |l| - 1;
    } else {
      i := ClaimedEntry(front, r);
    }
  }

  /** Nothing is counted twice and nothing is forgotten. */
  lemma {:induction false} EveryMessageHasOneFate<M>(l: Ledger<M>)
    ensures |l| == |Messages(l)| == |Kepts(l)| + Claims(l) + Losses(l)
  {
    if l != [] {
      EveryMessageHasOneFate(l[..|l| - 1]);
    }
  }
}
