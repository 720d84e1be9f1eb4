/** The reward pipeline and the ledger together, over whole branches: what all periods of a fork release
    against what its blocks have earned, and what that does to the money. */
module Economy {
  import opened Common
  import opened BlockTree
  import opened Transactions
  import opened RewardPeriod
  import opened RewardTx
  import opened Release
  import Ledger

  // ---------------------------------------------------------------- a fork's branch

  ghost predicate Foreign(l: Link, origin: Hash) {
    forall n :: n in Branch(l) ==> n.origin != origin
  }

  /** From l down to the first block of its fork; the blocks below that belong to other forks. */
  ghost predicate Fork(l: Link, origin: Hash, primary: bool) {
    && l.To? && l.node.origin == origin && l.node.IsPrimary() == primary
    && if l.node.IsOrigin() then Foreign(l.node.prev, origin) else l.node.prev.To? && Fork(l.node.prev, origin, primary)
  }

  /** The arithmetic of the period below a block fits, should the block be a boundary. */
  ghost predicate FitsAt(c: Chain, b: Index) {
    (b.IsPrimary() ==> b.prev.To?) && PeriodRewards(b, c.env, c.store, c.D).Some? ==> PeriodFits(c, b)
  }

  ghost predicate FitsAll(c: Chain, l: Link) {
    l.To? ==> FitsAt(c, l.node) && (!l.node.IsOrigin() ==> FitsAll(c, l.node.prev))
  }

  /** An accepted branch of one fork. */
  ghost predicate Sound(c: Chain, bodies: map<Hash, seq<Tx>>, l: Link, origin: Hash, primary: bool) {
    && Stored(c) && Linked(c, l) && Fork(l, origin, primary) && PrimarySteps(l)
    && Accepted(c, bodies, l) && HeightsOk(l) && FitsAll(c, l)
  }

  lemma SoundPrev(c: Chain, bodies: map<Hash, seq<Tx>>, l: Link, origin: Hash, primary: bool)
    requires Sound(c, bodies, l, origin, primary) && !l.node.IsOrigin()
    ensures Sound(c, bodies, l.node.prev, origin, primary)
    ensures l.node.prev.node.height <= l.node.height <= l.node.prev.node.height + 1
  {
    assert StoredOk(c, l.node.hash);
  }

  /** What the block l must release. */
  ghost function Due(c: Chain, l: Link): seq<Tx> {
    if l.To? && l.node.prev.To? then RewardDue(c, l.node.prev.node, l.node.kind, l.node.height) else []
  }

  /** The vote rewards of the block l. */
  ghost function RewardsOf(bodies: map<Hash, seq<Tx>>, l: Link): seq<Tx> {
    if l.To? && l.node.hash in bodies then RewardsIn(bodies[l.node.hash]) else []
  }

  lemma DueIsReleased(c: Chain, bodies: map<Hash, seq<Tx>>, l: Link)
    requires Accepted(c, bodies, l) && l.To? && l.node.prev.To?
    ensures RewardsOf(bodies, l) == Due(c, l)
  {
    AcceptedRewards(bodies[l.node.hash], Due(c, l));
  }

  /** All vote rewards of the fork up to l, oldest first. */
  ghost function AllReleased(bodies: map<Hash, seq<Tx>>, l: Link): seq<Tx> {
    if l.Null? || l.node.IsOrigin() then []
    else AllReleased(bodies, l.node.prev) + RewardsOf(bodies, l)
  }

  /** The rewards of the fork's blocks up to a height. */
  ghost function Earned(l: Link, top: int): nat {
    if l.Null? || l.node.prev.Null? || l.node.IsOrigin() then 0
    else
      var own := if l.node.height <= top && (Rewarded(l.node) || Work(l.node)) then l.node.reward else 0;
      own + Earned(l.node.prev, top)
  }

  lemma {:induction false} EarnedMonotone(l: Link, top: int, top': int)
    requires top <= top'
    ensures Earned(l, top) <= Earned(l, top')
  {
    if l.To? {
      EarnedMonotone(l.node.prev, top, top');
    }
  }

  lemma {:induction false} EarnedCapped(l: Link, top: int, top': int)
    requires HeightsOk(l) && (l.To? ==> l.node.height <= top && l.node.height <= top')
    ensures Earned(l, top) == Earned(l, top')
  {
    if l.To? && l.node.prev.To? {
      EarnedCapped(l.node.prev, top, top');
    }
  }

  /** A period's rewards and those before it are all rewards so far. */
  lemma {:induction false} EarnedSplit(l: Link, begin: int, top: int)
    requires HeightsOk(l) && (l.To? ==> l.node.height <= top)
    ensures Collectable(l, begin) + Earned(l, begin - 1) == Earned(l, top)
  {
    if l.Null? || l.node.prev.Null? || l.node.IsOrigin() {
    } else if l.node.height < begin {
      EarnedCapped(l, begin - 1, top);
    } else {
      EarnedSplit(l.node.prev, begin, top);
    }
  }

  // ---------------------------------------------------------------- boundaries of a fork

  /** With a boundary in the same fork, everything above it is of that fork. */
  lemma {:induction false} ForkAbove(l: Link, D: Length, origin: Hash, primary: bool)
    requires Fork(l, origin, primary) && Boundary(l, D).Some? && Boundary(l, D).value.origin == origin
    ensures OneFork(l, D, origin, primary)
  {
    if l.node.height % D != 0 {
      if l.node.IsOrigin() {
        BoundaryInBranch(l.node.prev, D);
      } else {
        ForkAbove(l.node.prev, D, origin, primary);
      }
    }
  }

  lemma {:induction false} BoundaryInBranch(l: Link, D: Length)
    requires Boundary(l, D).Some?
    ensures Boundary(l, D).value in Branch(l)
  {
    if l.node.height % D != 0 {
      BoundaryInBranch(l.node.prev, D);
    }
  }

  /** The boundary block is on the branch, no higher, and what was released above it is all that was
      released since. */
  lemma {:induction false} AtBoundary(c: Chain, bodies: map<Hash, seq<Tx>>, l: Link, origin: Hash, primary: bool)
    requires Sound(c, bodies, l, origin, primary) && OneFork(l, c.D, origin, primary)
    ensures Boundary(l, c.D).Some?
    ensures var b := Boundary(l, c.D).value;
            && Sound(c, bodies, To(b), origin, primary) && b.height % c.D == 0 && b.height <= l.node.height
            && AllReleased(bodies, l) == AllReleased(bodies, To(b)) + Released(bodies, l, c.D)
  {
    if l.node.height % c.D != 0 {
      SoundPrev(c, bodies, l, origin, primary);
      AtBoundary(c, bodies, l.node.prev, origin, primary);
      ReleasedLater(bodies, l, c.D, Boundary(l, c.D).value);
    } else {
      assert AllReleased(bodies, l) == AllReleased(bodies, l) + [];
    }
  }

  lemma ReleasedLater(bodies: map<Hash, seq<Tx>>, l: Link, D: Length, b: Index)
    requires l.To? && l.node.height % D != 0 && !l.node.IsOrigin()
    requires AllReleased(bodies, l.node.prev) == AllReleased(bodies, To(b)) + Released(bodies, l.node.prev, D)
    ensures AllReleased(bodies, l) == AllReleased(bodies, To(b)) + Released(bodies, l, D)
  {
    var last := RewardsOf(bodies, l);
    assert (AllReleased(bodies, To(b)) + Released(bodies, l.node.prev, D)) + last
        == AllReleased(bodies, To(b)) + (Released(bodies, l.node.prev, D) + last);
  }

  /** A boundary strictly below l is a shorter branch that has earned no more. */
  lemma {:induction false} BoundaryBelow(l: Link, D: Length, origin: Hash, primary: bool, top: int)
    requires OneFork(l, D, origin, primary)
    ensures Boundary(l, D).Some?
    ensures var b := Boundary(l, D).value;
            && Earned(To(b), top) <= Earned(l, top) && Depth(To(b)) <= Depth(l)
            && (l.node.height % D != 0 ==> Depth(To(b)) < Depth(l))
  {
    if l.node.height % D != 0 {
      BoundaryBelow(l.node.prev, D, origin, primary, top);
    }
  }

  // ---------------------------------------------------------------- heights and periods

  /** The height of the last boundary whose rewards may have been released at height h. */
  function Settled(h: nat, D: Length): nat {
    if h == 0 then 0 else (h - 1) / D * D
  }

  lemma DivMonotone(a: nat, b: nat, D: Length)
    requires a <= b
    ensures a / D * D <= b / D * D
  {
    var q, r := a / D, b / D;
    assert D * q <= a && b < D * r + D;
    if q > r {
      MulMonotone(r + 1, q, D);
    }
    MulMonotone(q, r, D);
  }

  lemma SettledMonotone(h: nat, h': nat, D: Length)
    requires h <= h'
    ensures Settled(h, D) <= Settled(h', D)
  {
    if h > 0 {
      DivMonotone(h - 1, h' - 1, D);
    }
  }

  lemma SettledAbove(b: nat, h: nat, D: Length)
    requires b % D == 0 && b < h
    ensures b <= Settled(h, D)
  {
    DivMonotone(b, h - 1, D);
    assert b == b / D * D;
  }

  lemma SettledAtBoundary(b: nat, D: Length)
    requires b % D == 0 && b >= D
    ensures Settled(b, D) == b - D
  {
    var q := b / D;
    assert b == D * q;
    DivUnique(b - 1, q - 1, D - 1, D);
  }

  // ---------------------------------------------------------------- the invariant over periods

  /** A block that has something to release lies above a boundary of its own fork. */
  lemma DueMeansAbove(c: Chain, bodies: map<Hash, seq<Tx>>, l: Link, origin: Hash, primary: bool)
    requires Sound(c, bodies, l, origin, primary) && !l.node.IsOrigin()
    requires Due(c, l) != []
    ensures Above(c, l, origin, primary) && l.node.height % c.D != 0
    ensures Boundary(l, c.D).Some? && ListsAt(c, Boundary(l, c.D).value) != []
  {
    SoundPrev(c, bodies, l, origin, primary);
    KnownHash(c, l.node.prev.node.hash);
    ForkAbove(l, c.D, origin, primary);
  }

  /** What the last period of a branch has released is covered by the rewards of the period before. */
  lemma LastPeriodCovered(c: Chain, bodies: map<Hash, seq<Tx>>, l: Link, origin: Hash, primary: bool, b: Index)
    requires Sound(c, bodies, l, origin, primary) && Above(c, l, origin, primary) && Boundary(l, c.D) == Some(b)
    requires FitsAt(c, b) && b.height >= c.D && ListsAt(c, b) != []
    ensures TxTotal(Released(bodies, l, c.D)) <= PeriodTotal(b, c.D)
  {
    ReleasedWithinPeriod(c, bodies, l, origin, primary, b);
  }

  /** Over all periods: what an accepted branch has released is at most what its blocks had earned by
      the boundary the current period started from. */
  lemma {:induction false} ReleasedWithinEarned(c: Chain, bodies: map<Hash, seq<Tx>>, l: Link, origin: Hash,
      primary: bool)
    requires Sound(c, bodies, l, origin, primary)
    ensures TxTotal(AllReleased(bodies, l)) <= Earned(l, Settled(l.node.height, c.D))
    decreases Depth(l), 1
  {
    if !l.node.IsOrigin() {
      DueIsReleased(c, bodies, l);
      if Due(c, l) == [] {
        QuietBlock(c, bodies, l, origin, primary);
      } else {
        PayingBlock(c, bodies, l, origin, primary);
      }
    }
  }

  lemma {:induction false} QuietBlock(c: Chain, bodies: map<Hash, seq<Tx>>, l: Link, origin: Hash, primary: bool)
    requires Sound(c, bodies, l, origin, primary) && !l.node.IsOrigin() && RewardsOf(bodies, l) == []
    ensures TxTotal(AllReleased(bodies, l)) <= Earned(l, Settled(l.node.height, c.D))
    decreases Depth(l), 0
  {
    var p := l.node.prev;
    SoundPrev(c, bodies, l, origin, primary);
    ReleasedWithinEarned(c, bodies, p, origin, primary);
    assert AllReleased(bodies, l) == AllReleased(bodies, p);
    SettledMonotone(p.node.height, l.node.height, c.D);
    EarnedMonotone(p, Settled(p.node.height, c.D), Settled(l.node.height, c.D));
  }

  /** Up to the boundary b by induction, and since then by the period that b closes. */
  lemma PeriodsAddUp(b: Index, D: Length, before: nat, since: nat)
    requires HeightsOk(To(b)) && b.height % D == 0 && b.height >= D
    requires before <= Earned(To(b), Settled(b.height, D)) && since <= PeriodTotal(b, D)
    ensures before + since <= Earned(To(b), b.height)
  {
    SettledAtBoundary(b.height, D);
    EarnedSplit(To(b), b.height - D + 1, b.height);
  }

  lemma EarnedSinceBoundary(l: Link, D: Length, origin: Hash, primary: bool, b: Index)
    requires OneFork(l, D, origin, primary) && Boundary(l, D) == Some(b) && b.height < l.node.height &&
             b.height % D == 0
    ensures Earned(To(b), b.height) <= Earned(l, Settled(l.node.height, D))
  {
    BoundaryBelow(l, D, origin, primary, b.height);
    SettledAbove(b.height, l.node.height, D);
    EarnedMonotone(l, b.height, Settled(l.node.height, D));
  }

  /** Where that boundary is. */
  lemma {:induction false} BoundaryLower(l: Link, D: Length)
    requires HeightsOk(l) && Boundary(l, D).Some?
    ensures Boundary(l, D).value.height % D == 0 && Boundary(l, D).value.height <= l.node.height
    ensures Boundary(l, D).value.height == l.node.height ==> l.node.height % D == 0
  {
    if l.node.height % D != 0 {
      BoundaryLower(l.node.prev, D);
    }
  }

  lemma BoundaryHeights(c: Chain, l: Link, origin: Hash, primary: bool, b: Index)
    requires Above(c, l, origin, primary) && l.node.height % c.D != 0 && HeightsOk(l) && Boundary(l, c.D) == Some(b)
    ensures b.height % c.D == 0 && c.D <= b.height < l.node.height
  {
    BoundaryExists(c, l.node.hash);
    BoundaryLower(l, c.D);
  }

  /** The step from a boundary to a block of the next period. */
  lemma PeriodStep(c: Chain, bodies: map<Hash, seq<Tx>>, l: Link, origin: Hash, primary: bool, b: Index)
    requires Above(c, l, origin, primary) && l.node.height % c.D != 0 && HeightsOk(l) && HeightsOk(To(b)) &&
             Boundary(l, c.D) == Some(b)
    requires AllReleased(bodies, l) == AllReleased(bodies, To(b)) + Released(bodies, l, c.D)
    requires TxTotal(AllReleased(bodies, To(b))) <= Earned(To(b), Settled(b.height, c.D))
    requires TxTotal(Released(bodies, l, c.D)) <= PeriodTotal(b, c.D)
    ensures TxTotal(AllReleased(bodies, l)) <= Earned(l, Settled(l.node.height, c.D))
  {
    BoundaryHeights(c, l, origin, primary, b);
    TxTotalAppend(AllReleased(bodies, To(b)), Released(bodies, l, c.D));
    PeriodsAddUp(b, c.D, TxTotal(AllReleased(bodies, To(b))), TxTotal(Released(bodies, l, c.D)));
    EarnedSinceBoundary(l, c.D, origin, primary, b);
  }

  lemma {:induction false} PayingBlock(c: Chain, bodies: map<Hash, seq<Tx>>, l: Link, origin: Hash, primary: bool)
    requires Sound(c, bodies, l, origin, primary) && !l.node.IsOrigin() && Due(c, l) != []
    ensures TxTotal(AllReleased(bodies, l)) <= Earned(l, Settled(l.node.height, c.D))
    decreases Depth(l), 0
  {
    DueMeansAbove(c, bodies, l, origin, primary);
    AtBoundary(c, bodies, l, origin, primary);
    var b := Boundary(l, c.D).value;
    BoundaryHeights(c, l, origin, primary, b);
    BoundaryBelow(l, c.D, origin, primary, 0);
    ReleasedWithinEarned(c, bodies, To(b), origin, primary);
    LastPeriodCovered(c, bodies, l, origin, primary, b);
    PeriodStep(c, bodies, l, origin, primary, b);
  }

  // ---------------------------------------------------------------- the money

  /** A block's mint transaction, and the reward the verifier grants it. */
  datatype Mint = Mint(to: Dest, amount: nat, granted: nat)

  function MintOf(mints: map<Hash, Mint>, h: Hash): Mint {
    if h in mints then mints[h] else Mint(0, 0, 0)
  }

  ghost function BlockOf(c: Chain, bodies: map<Hash, seq<Tx>>, mints: map<Hash, Mint>, l: Link): Ledger.Block
    requires l.To?
  {
    var m := MintOf(mints, l.node.hash);
    Ledger.Block(if l.node.hash in bodies then bodies[l.node.hash] else [], |Due(c, l)|, m.to, m.amount, m.granted)
  }

  /** The blocks of the fork after its first, oldest first, as the ledger sees them. */
  ghost function BlocksOf(c: Chain, bodies: map<Hash, seq<Tx>>, mints: map<Hash, Mint>, l: Link): seq<Ledger.Block> {
    if l.Null? || l.node.IsOrigin() then []
    else BlocksOf(c, bodies, mints, l.node.prev) + [BlockOf(c, bodies, mints, l)]
  }

  ghost function GrantedMints(mints: map<Hash, Mint>, l: Link): nat {
    if l.Null? || l.node.IsOrigin() then 0
    else GrantedMints(mints, l.node.prev) + MintOf(mints, l.node.hash).granted
  }

  /** Ordinary transactions name a sender, and amounts and fees are in range. */
  ghost predicate Ordinary(b: Ledger.Block) {
    Ledger.InRange(b.vtx) && forall i :: b.ignore <= i < |b.vtx| ==> b.vtx[i].from != 0
  }

  ghost predicate AllOrdinary(blocks: seq<Ledger.Block>) {
    forall i :: 0 <= i < |blocks| ==> Ordinary(blocks[i])
  }

  ghost predicate AllRegular(blocks: seq<Ledger.Block>) {
    forall i :: 0 <= i < |blocks| ==> Ledger.Regular(blocks[i])
  }

  /** The vote rewards a block starts with carry no fee, so an ordinary block is regular. */
  lemma OrdinaryIsRegular(c: Chain, bodies: map<Hash, seq<Tx>>, mints: map<Hash, Mint>, l: Link)
    requires Stored(c) && Accepted(c, bodies, l) && l.To? && l.node.prev.To? && Linked(c, l.node.prev)
    requires Ordinary(BlockOf(c, bodies, mints, l))
    ensures Ledger.Regular(BlockOf(c, bodies, mints, l))
    ensures Ledger.Prefix(BlockOf(c, bodies, mints, l)) == Due(c, l)
  {
    KnownHash(c, l.node.prev.node.hash);
    DueRewards(c, l.node.prev.node.hash, l.node.kind, l.node.height);
    assert forall i :: 0 <= i < |Due(c, l)| ==> bodies[l.node.hash][i] == Due(c, l)[i];
  }

  lemma OrdinaryParts(c: Chain, bodies: map<Hash, seq<Tx>>, mints: map<Hash, Mint>, l: Link)
    requires l.To? && !l.node.IsOrigin() && AllOrdinary(BlocksOf(c, bodies, mints, l))
    ensures AllOrdinary(BlocksOf(c, bodies, mints, l.node.prev)) && Ordinary(BlockOf(c, bodies, mints, l))
  {
    var blocks, before := BlocksOf(c, bodies, mints, l), BlocksOf(c, bodies, mints, l.node.prev);
    assert forall i :: 0 <= i < |before| ==> blocks[i] == before[i];
    assert blocks[|before|] == BlockOf(c, bodies, mints, l);
  }

  lemma {:induction false} ForkIsRegular(c: Chain, bodies: map<Hash, seq<Tx>>, mints: map<Hash, Mint>, l: Link,
                                         origin: Hash, primary: bool)
    requires Sound(c, bodies, l, origin, primary) && AllOrdinary(BlocksOf(c, bodies, mints, l))
    ensures AllRegular(BlocksOf(c, bodies, mints, l))
  {
    if !l.node.IsOrigin() {
      SoundPrev(c, bodies, l, origin, primary);
      OrdinaryParts(c, bodies, mints, l);
      ForkIsRegular(c, bodies, mints, l.node.prev, origin, primary);
      OrdinaryIsRegular(c, bodies, mints, l);
    }
  }

  lemma GrantedStep(blocks: seq<Ledger.Block>, b: Ledger.Block)
    ensures Ledger.Granted(blocks + [b]) == Ledger.Granted(blocks) + TxTotal(Ledger.Prefix(b)) + b.reward
  {
    assert (blocks + [b])[..|blocks|] == blocks;
  }

  /** What the ledger calls granted is what was released and what the mints may claim. */
  lemma {:induction false} GrantedIsReleased(c: Chain, bodies: map<Hash, seq<Tx>>, mints: map<Hash, Mint>, l: Link,
                                             origin: Hash, primary: bool)
    requires Sound(c, bodies, l, origin, primary) && AllOrdinary(BlocksOf(c, bodies, mints, l))
    ensures Ledger.Granted(BlocksOf(c, bodies, mints, l)) == TxTotal(AllReleased(bodies, l)) + GrantedMints(mints, l)
  {
    if !l.node.IsOrigin() {
      SoundPrev(c, bodies, l, origin, primary);
      OrdinaryParts(c, bodies, mints, l);
      GrantedIsReleased(c, bodies, mints, l.node.prev, origin, primary);
      OrdinaryIsRegular(c, bodies, mints, l);
      DueIsReleased(c, bodies, l);
      GrantedStep(BlocksOf(c, bodies, mints, l.node.prev), BlockOf(c, bodies, mints, l));
      TxTotalAppend(AllReleased(bodies, l.node.prev), Due(c, l));
    }
  }

  /** The money of a fork never exceeds what it started with, what its blocks have earned, and what their
      mints were granted. */
  lemma ForkMoney(c: Chain, bodies: map<Hash, seq<Tx>>, mints: map<Hash, Mint>, l: Link, origin: Hash, primary: bool,
                  store: Ledger.Accounts, refused: set<Tx>)
    requires Sound(c, bodies, l, origin, primary) && AllOrdinary(BlocksOf(c, bodies, mints, l))
    requires Ledger.AfterAll(store, BlocksOf(c, bodies, mints, l), refused).Some?
    requires Ledger.Money(store) + Earned(l, Settled(l.node.height, c.D)) + GrantedMints(mints, l) < WORD
    ensures Ledger.Money(Ledger.AfterAll(store, BlocksOf(c, bodies, mints, l), refused).value)
            <= Ledger.Money(store) + Earned(l, Settled(l.node.height, c.D)) + GrantedMints(mints, l)
  {
    ReleasedWithinEarned(c, bodies, l, origin, primary);
    GrantedIsReleased(c, bodies, mints, l, origin, primary);
    ForkIsRegular(c, bodies, mints, l, origin, primary);
    Ledger.ChainMoney(store, BlocksOf(c, bodies, mints, l), refused);
  }
}
