/** CBlockChain::GetBlockChanges (src/blockchain/blockchain.cpp): the blocks to undo and the blocks to
    replay when the tip of a fork moves. */
module Reorg {
  import opened Common
  import opened BlockTree

  /** What a call does: it delivers the two lists, newest first; it follows a null pointer because one
      side ran out of blocks first; or a block body cannot be read. */
  datatype Outcome = Done(added: seq<Index>, removed: seq<Index>) | Fault | ReadError

  /** The largest 64-bit time. A null old tip is given the time -1, and the comparison with a block's
      64-bit time is unsigned, so -1 counts as this. */
  const LATEST: nat := 0xFFFFFFFF_FFFFFFFF

  function TimeOf(l: Link): nat {
    match l
    case Null => LATEST
    case To(n) => n.time
  }

  ghost function Changes(new_: Link, fork: Link): Outcome
    decreases Depth(new_) + Depth(fork)
  {
    if new_ == fork then Done([], [])
    else if new_.Null? then Fault
    else if new_.node.time >= TimeOf(fork) then
      match Changes(new_.node.prev, fork)
      case Done(a, r) => Done([new_.node] + a, r)
      case o => o
    else if fork.Null? then Fault
    else
      match Changes(new_, fork.node.prev)
      case Done(a, r) => Done(a, [fork.node] + r)
      case o => o
  }

  /** The blocks whose bodies are read on the way. */
  ghost function Reads(new_: Link, fork: Link): seq<Index>
    decreases Depth(new_) + Depth(fork)
  {
    if new_ == fork || new_.Null? then []
    else if new_.node.time >= TimeOf(fork) then [new_.node] + Reads(new_.node.prev, fork)
    else if fork.Null? then []
    else [fork.node] + Reads(new_, fork.node.prev)
  }

  /** They are the blocks of the two lists and no others. */
  lemma {:induction false} ReadsAreLists(pNew: Link, pFork: Link, n: Index)
    requires Changes(pNew, pFork).Done?
    ensures n in Reads(pNew, pFork) <==> n in Changes(pNew, pFork).added || n in Changes(pNew, pFork).removed
    decreases Depth(pNew) + Depth(pFork)
  {
    if pNew == pFork {
    } else if pNew.node.time >= TimeOf(pFork) {
      ReadsAreLists(pNew.node.prev, pFork, n);
    } else {
      ReadsAreLists(pNew, pFork.node.prev, n);
    }
  }

  method GetBlockChanges(pNew: Link, pFork: Link, readable: set<Hash>) returns (r: Outcome)
    ensures r == if forall n :: n in Reads(pNew, pFork) ==> n.hash in readable then Changes(pNew, pFork) else ReadError
  {
    var a, b := pNew, pFork;
    var added, removed := [], [];
    while a != b
      invariant Changes(pNew, pFork) == Extend(added, removed, Changes(a, b))
      invariant forall n :: n in Reads(a, b) ==> n in Reads(pNew, pFork)
      invariant forall n :: n in Reads(pNew, pFork) ==> n in Reads(a, b) || n.hash in readable
      decreases Depth(a) + Depth(b)
    {
      if a.Null? || (b.Null? && a.node.time < LATEST) {
        return Fault;
      }
      ExtendStep(a, b, added, removed);
      if a.node.time >= TimeOf(b) {
        if a.node.hash !in readable {
          assert a.node in Reads(a, b);
          return ReadError;
        }
        added := added + [a.node];
        a := a.node.prev;
      } else {
        if b.node.hash !in readable {
          assert b.node in Reads(a, b);
          return ReadError;
        }
        removed := removed + [b.node];
        b := b.node.prev;
      }
    }
    r := Done(added, removed);
  }

  lemma ExtendStep(a: Link, b: Link, added: seq<Index>, removed: seq<Index>)
    requires a != b && a.To? && (b.Null? ==> a.node.time >= LATEST)
    ensures a.node.time >= TimeOf(b) ==>
      Extend(added, removed, Changes(a, b)) == Extend(added + [a.node], removed, Changes(a.node.prev, b))
    ensures a.node.time < TimeOf(b) ==>
      Extend(added, removed, Changes(a, b)) == Extend(added, removed + [b.node], Changes(a, b.node.prev))
  {
    if a.node.time >= TimeOf(b) {
      var o := Changes(a.node.prev, b);
      if o.Done? {
        assert (added + [a.node]) + o.added == added + ([a.node] + o.added);
      }
    } else {
      var o := Changes(a, b.node.prev);
      if o.Done? {
        assert (removed + [b.node]) + o.removed == removed + ([b.node] + o.removed);
      }
    }
  }

  /** The outcome of a run that has already collected two lists. */
  ghost function Extend(added: seq<Index>, removed: seq<Index>, o: Outcome): Outcome {
    match o
    case Done(a, r) => Done(added + a, removed + r)
    case _ => o
  }

  /** Undoing `removed` and replaying `added` leads from the old tip to the new one. */
  ghost predicate Replays(pNew: Link, pFork: Link, added: seq<Index>, removed: seq<Index>) {
    && |removed| <= Depth(pFork) && removed == Branch(pFork)[..|removed|]
    && added + Branch(pFork)[|removed|..] == Branch(pNew)
  }

  lemma ReplayOneMore(n: Index, pFork: Link, added: seq<Index>, removed: seq<Index>)
    requires Replays(n.prev, pFork, added, removed)
    ensures Replays(To(n), pFork, [n] + added, removed)
  {
    assert ([n] + added) + Branch(pFork)[|removed|..] == [n] + (added + Branch(pFork)[|removed|..]);
  }

  lemma UndoOneMore(pNew: Link, n: Index, added: seq<Index>, removed: seq<Index>)
    requires Replays(pNew, n.prev, added, removed)
    ensures Replays(pNew, To(n), added, [n] + removed)
  {
    var b := Branch(n.prev);
    assert Branch(To(n)) == [n] + b;
    assert ([n] + b)[..|removed| + 1] == [n] + b[..|removed|];
    assert ([n] + b)[|removed| + 1..] == b[|removed|..];
  }

  /** Undoing the removed blocks and replaying the added ones leads from the old tip to the new one. */
  lemma {:induction false} ReplayReachesNewTip(pNew: Link, pFork: Link)
    requires Changes(pNew, pFork).Done?
    ensures Replays(pNew, pFork, Changes(pNew, pFork).added, Changes(pNew, pFork).removed)
    decreases Depth(pNew) + Depth(pFork)
  {
    if pNew == pFork {
    } else if pNew.node.time >= TimeOf(pFork) {
      ReplayReachesNewTip(pNew.node.prev, pFork);
      var o := Changes(pNew.node.prev, pFork);
      ReplayOneMore(pNew.node, pFork, o.added, o.removed);
    } else {
      ReplayReachesNewTip(pNew, pFork.node.prev);
      var o := Changes(pNew, pFork.node.prev);
      UndoOneMore(pNew, pFork.node, o.added, o.removed);
    }
  }

  /** Times never decrease from parent to child. */
  ghost predicate TimesGrow(l: Link) {
    l.To? && l.node.prev.To? ==> l.node.prev.node.time <= l.node.time && TimesGrow(l.node.prev)
  }

  /** base is the lowest common ancestor of the two tips, above which they have no block in common. */
  ghost predicate Forked(pNew: Link, pFork: Link, base: Link, a: seq<Index>, r: seq<Index>) {
    && Branch(pNew) == a + Branch(base)
    && Branch(pFork) == r + Branch(base)
    && base.To?
    && (a == [] || r == [] || a[|a|-1] != r[|r|-1])
  }

  lemma BranchInjective(l: Link, m: Link)
    requires Branch(l) == Branch(m)
    ensures l == m
  {
    if l.To? && m.To? {
      assert l.node == Branch(l)[0] && m.node == Branch(m)[0];
    }
  }

  lemma Peel(l: Link, a: seq<Index>, base: Link)
    requires Branch(l) == a + Branch(base) && a != []
    ensures l.To? && l.node == a[0] && Branch(l.node.prev) == a[1..] + Branch(base)
  {
    assert Branch(l)[0] == (a + Branch(base))[0] == a[0];
    assert Branch(l)[1..] == Branch(l.node.prev);
    assert (a + Branch(base))[1..] == a[1..] + Branch(base);
  }

  /** Along a branch every block is at least as late as those below it. */
  lemma {:induction false} LaterAbove(l: Link, base: Link, a: seq<Index>)
    requires TimesGrow(l) && Branch(l) == a + Branch(base) && base.To?
    ensures TimeOf(base) <= TimeOf(l)
    ensures a != [] ==> TimeOf(base) <= a[|a|-1].time <= TimeOf(l)
    decreases |a|
  {
    if a == [] {
      BranchInjective(l, base);
    } else {
      Peel(l, a, base);
      LaterAbove(l.node.prev, base, a[1..]);
    }
  }

  /** Where the two sides stand against each other while both are above the common ancestor. */
  lemma Step(pNew: Link, pFork: Link, base: Link, a: seq<Index>, r: seq<Index>)
    requires Forked(pNew, pFork, base, a, r)
    ensures pNew.To? && pFork.To?
    ensures pNew == pFork <==> a == [] && r == []
    ensures a != [] ==> pNew.node == a[0] && Forked(pNew.node.prev, pFork, base, a[1..], r)
    ensures r != [] ==> pFork.node == r[0] && Forked(pNew, pFork.node.prev, base, a, r[1..])
    ensures a == [] ==> pNew == base
    ensures r == [] ==> pFork == base
  {
    if a == [] {
      assert a + Branch(base) == Branch(base);
      BranchInjective(pNew, base);
    } else {
      Peel(pNew, a, base);
    }
    if r == [] {
      assert r + Branch(base) == Branch(base);
      BranchInjective(pFork, base);
    } else {
      Peel(pFork, r, base);
    }
    if pNew == pFork {
      assert |a| == |r|;
      assert a == Branch(pNew)[..|a|] == Branch(pFork)[..|r|] == r;
    }
  }

  lemma {:induction false} FindsAncestor(pNew: Link, pFork: Link, base: Link, a: seq<Index>, r: seq<Index>)
    requires Forked(pNew, pFork, base, a, r) && TimesGrow(pNew) && TimesGrow(pFork)
    requires r == [] || r[|r|-1].time > base.node.time
    ensures Changes(pNew, pFork) == Done(a, r)
    decreases |a| + |r|
  {
    Step(pNew, pFork, base, a, r);
    LaterAbove(pNew, base, a);
    LaterAbove(pFork, base, r);
    if pNew != pFork {
      if pNew.node.time >= TimeOf(pFork) {
        FindsAncestor(pNew.node.prev, pFork, base, a[1..], r);
        assert a == [a[0]] + a[1..];
      } else {
        FindsAncestor(pNew, pFork.node.prev, base, a, r[1..]);
        assert r == [r[0]] + r[1..];
      }
    }
  }

  lemma {:induction false} MissesAncestor(pNew: Link, pFork: Link, base: Link, a: seq<Index>, r: seq<Index>)
    requires Forked(pNew, pFork, base, a, r) && TimesGrow(pNew) && TimesGrow(pFork)
    requires r != [] && r[|r|-1].time <= base.node.time
    ensures Changes(pNew, pFork).Done? ==> |Changes(pNew, pFork).added| > |a|
    decreases |a| + |r|
  {
    Step(pNew, pFork, base, a, r);
    LaterAbove(pNew, base, a);
    LaterAbove(pFork, base, r);
    if pNew.node.time >= TimeOf(pFork) {
      if a != [] {
        MissesAncestor(pNew.node.prev, pFork, base, a[1..], r);
      }
    } else {
      MissesAncestor(pNew, pFork.node.prev, base, a, r[1..]);
    }
  }

  /** For two tips of one tree whose times never decrease, the lists are exactly the two paths down to
      the lowest common ancestor if and only if the ancestor is strictly earlier than the first block
      above it on the old side, or there is no such block. */
  lemma ExactIff(pNew: Link, pFork: Link, base: Link, a: seq<Index>, r: seq<Index>)
    requires Forked(pNew, pFork, base, a, r) && TimesGrow(pNew) && TimesGrow(pFork)
    ensures Changes(pNew, pFork) == Done(a, r) <==> r == [] || r[|r|-1].time > base.node.time
  {
    if r == [] || r[|r|-1].time > base.node.time {
      FindsAncestor(pNew, pFork, base, a, r);
    } else {
      MissesAncestor(pNew, pFork, base, a, r);
    }
  }

  ghost predicate TimesStrict(l: Link) {
    l.To? && l.node.prev.To? ==> l.node.prev.node.time < l.node.time && TimesStrict(l.node.prev)
  }

  lemma StrictGrows(l: Link)
    requires TimesStrict(l)
    ensures TimesGrow(l)
  {
  }

  lemma {:induction false} StrictAbove(l: Link, base: Link, r: seq<Index>)
    requires TimesStrict(l) && Branch(l) == r + Branch(base) && r != [] && base.To?
    ensures r[|r|-1].time > TimeOf(base)
    decreases |r|
  {
    Peel(l, r, base);
    if |r| == 1 {
      BranchInjective(l.node.prev, base);
    } else {
      StrictAbove(l.node.prev, base, r[1..]);
    }
  }

  /** With times strictly increasing the lists are always the two paths to the lowest common ancestor. */
  lemma StrictTimesExact(pNew: Link, pFork: Link, base: Link, a: seq<Index>, r: seq<Index>)
    requires Forked(pNew, pFork, base, a, r) && TimesStrict(pNew) && TimesStrict(pFork)
    ensures Changes(pNew, pFork) == Done(a, r)
  {
    StrictGrows(pNew);
    StrictGrows(pFork);
    if r != [] {
      StrictAbove(pFork, base, r);
    }
    ExactIff(pNew, pFork, base, a, r);
  }

  lemma {:induction false} BranchSuffix(l: Link, k: nat)
    requires k < Depth(l)
    ensures Branch(l)[k..] == Branch(To(Branch(l)[k]))
  {
    if k > 0 {
      BranchSuffix(l.node.prev, k - 1);
      assert Branch(l)[k..] == Branch(l.node.prev)[k-1..];
    }
  }

  lemma ForkedAbove(n: Index, pFork: Link, base: Link, a: seq<Index>, r: seq<Index>)
    requires Forked(n.prev, pFork, base, a, r) && n !in Branch(pFork)
    ensures Forked(To(n), pFork, base, [n] + a, r)
  {
    assert [n] + (a + Branch(base)) == ([n] + a) + Branch(base);
    if a == [] && r != [] {
      assert r[|r|-1] == Branch(pFork)[|r|-1];
    } else if a != [] {
      assert ([n] + a)[|a|] == a[|a|-1];
    }
  }

  /** Two tips over one root have a lowest common ancestor. */
  lemma {:induction false} CommonAncestor(pNew: Link, pFork: Link) returns (base: Link, a: seq<Index>, r: seq<Index>)
    requires pNew.To? && pFork.To?
    requires Branch(pNew)[Depth(pNew) - 1] == Branch(pFork)[Depth(pFork) - 1]
    ensures Forked(pNew, pFork, base, a, r)
    decreases Depth(pNew)
  {
    if pNew.node in Branch(pFork) {
      var k :| 0 <= k < Depth(pFork) && Branch(pFork)[k] == pNew.node;
      BranchSuffix(pFork, k);
      base, a, r := pNew, [], Branch(pFork)[..k];
      assert Branch(pFork) == Branch(pFork)[..k] + Branch(pFork)[k..];
      assert Branch(pNew) == [] + Branch(base);
    } else {
      assert pNew.node.prev.To? ==> Branch(pNew)[Depth(pNew) - 1] == Branch(pNew.node.prev)[Depth(pNew.node.prev) - 1];
      base, a, r := CommonAncestor(pNew.node.prev, pFork);
      ForkedAbove(pNew.node, pFork, base, a, r);
      a := [pNew.node] + a;
    }
  }

  /** Without an old tip the call yields the whole branch if and only if every block of it has the
      largest 64-bit time; any real branch makes it follow the null old tip. */
  lemma {:induction false} NullOldTip(l: Link)
    ensures Changes(l, Null) == if forall n :: n in Branch(l) ==> n.time >= LATEST then Done(Branch(l), []) else Fault
    decreases Depth(l)
  {
    if l.To? {
      assert l.node in Branch(l);
      NullOldTip(l.node.prev);
      assert forall n :: n in Branch(l) <==> n == l.node || n in Branch(l.node.prev);
    }
  }

  /** Equal times defeat it: from a child back to its equally old parent the walk runs past the root. */
  lemma EqualTimesFault(g: Index, c: Index)
    requires g.prev.Null? && c.prev == To(g) && c.time == g.time
    ensures Forked(To(g), To(c), To(g), [], [c]) && Changes(To(g), To(c)) == Fault
  {
    assert Branch(To(c)) == [c] + Branch(To(g));
    assert Branch(To(g)) == [] + Branch(To(g));
    assert Changes(Null, To(c)) == Fault;
  }
}
