/** The release of vote rewards, one list per block: CBlockChain::CalcBlockVoteRewardTx with its cache,
    CBlockChain::VerifyVoteRewardTx (src/blockchain/blockchain.cpp) and the reward part of
    CBlockMaker::ArrangeBlockTx (src/blockchain/blockmaker.cpp). */
module Release {
  import opened Common
  import opened BlockTree
  import opened Transactions
  import opened VoteReward
  import opened RewardPeriod
  import opened RewardTx
  import Ledger

  /** Everything the calculation looks up. `heightOf` reads the height out of a block hash, `ends` is by
      boundary block, `contexts` by previous block: the addresses whose context can be found there. */
  datatype Chain = Chain(
    heightOf: Hash -> nat,
    env: Lookups,
    store: VoteStore,
    D: Length,
    ends: map<Hash, RewardEnv>,
    contexts: map<Hash, set<Dest>>)

  ghost predicate StoredOk(c: Chain, h: Hash)
    requires h in c.env.blocks
  {
    var n := c.env.blocks[h];
    && n.hash == h && n.height == c.heightOf(h)
    && (n.prev.To? ==> n.prev.node.hash in c.env.blocks && c.env.blocks[n.prev.node.hash] == n.prev.node)
    && (n.prev.To? ==> n.prev.node.height <= n.height <= n.prev.node.height + 1)
    && (n.prev.Null? ==> n.height == 0)
  }

  /** The known headers: named by their hash, which tells their height, closed under parents, with
      heights that grow by at most one from parent to child. */
  ghost predicate Stored(c: Chain) {
    forall h :: h in c.env.blocks ==> StoredOk(c, h)
  }

  /** The nearest block at or below `l` whose height is a multiple of the period. */
  function Boundary(l: Link, D: Length): Option<Index> {
    if l.Null? then None
    else if l.node.height % D == 0 then Some(l.node)
    else Boundary(l.node.prev, D)
  }

  /** How many blocks above the boundary are not vacant. */
  function Carriers(l: Link, D: Length): nat {
    if l.Null? || l.node.height % D == 0 then 0
    else Carriers(l.node.prev, D) + if l.node.kind.Vacant? then 0 else 1
  }

  // ---------------------------------------------------------------- what a block has to release

  ghost function EndReward(c: Chain, b: Index, prev: Hash): Option<seq<seq<Tx>>>
    requires b.IsPrimary() ==> b.prev.To?
  {
    if b.hash !in c.ends then None
    else
      match PeriodRewards(b, c.env, c.store, c.D)
      case None => None
      case Some(r) => EndVoteReward(r, c.ends[b.hash], if prev in c.contexts then c.contexts[prev] else {}, b.height)
  }

  /** The lists of a boundary block, whichever block asks for them. */
  ghost function ListsAt(c: Chain, b: Index): seq<seq<Tx>> {
    if b.hash !in c.ends || (b.IsPrimary() && b.prev.Null?) || PeriodRewards(b, c.env, c.store, c.D).None? then []
    else
      var env := c.ends[b.hash];
      match PayeesOf(PeriodRewards(b, c.env, c.store, c.D).value, env)
      case None => []
      case Some(m) => if m == map[] || env.max == 0 then [] else Lists(m, b.height, env.max)
  }

  /** The address contexts decide whether the calculation succeeds, not what it yields. */
  lemma EndRewardIsLists(c: Chain, b: Index, prev: Hash)
    requires (b.IsPrimary() ==> b.prev.To?) && EndReward(c, b, prev).Some?
    ensures EndReward(c, b, prev).value == ListsAt(c, b)
  {
  }

  function ListIndex(c: Chain, prev: Index): nat {
    if prev.IsPrimary() then c.heightOf(prev.hash) % c.D else Carriers(To(prev), c.D)
  }

  /** Blocks that never release anything. */
  predicate Exempt(c: Chain, prev: Hash, kind: BlockType, height: nat) {
    c.heightOf(prev) < c.D || height % c.D == 0 || kind.Genesis? || kind.Origin? || kind.Vacant?
  }

  function ListOrNone(list: seq<seq<Tx>>, i: nat): seq<Tx> {
    if i < |list| then list[i] else []
  }

  /** The reward transactions a block of this kind and height on top of `prev` must start with. */
  ghost function RewardDue(c: Chain, prev: Index, kind: BlockType, height: nat): seq<Tx> {
    if Exempt(c, prev.hash, kind, height) then []
    else
      match Boundary(To(prev), c.D)
      case None => []
      case Some(b) => ListAfter(c, prev, b)
  }

  /** The list that follows `prev`, whose boundary block is b. */
  ghost function ListAfter(c: Chain, prev: Index, b: Index): seq<Tx> {
    if b.origin != prev.origin then [] else ListOrNone(ListsAt(c, b), ListIndex(c, prev))
  }

  /** Rewards are due only to primary, subsidiary and extended blocks strictly between two boundaries, once
      the first period is over and when the boundary below belongs to the fork. */
  lemma OnlyBetweenBoundaries(c: Chain, prev: Index, kind: BlockType, height: nat)
    requires RewardDue(c, prev, kind, height) != []
    ensures kind in {Primary, Subsidiary, Extended} && height % c.D != 0 && c.heightOf(prev.hash) >= c.D
    ensures Boundary(To(prev), c.D).Some? && Boundary(To(prev), c.D).value.origin == prev.origin
  {
    assert Boundary(To(prev), c.D).Some?;
  }

  ghost function DueAfter(c: Chain, prev: Hash, kind: BlockType, height: nat): seq<Tx> {
    if prev in c.env.blocks then RewardDue(c, c.env.blocks[prev], kind, height) else []
  }

  // ---------------------------------------------------------------- boundaries

  lemma ModBelow(h: nat, D: Length)
    requires h >= D && h % D != 0
    ensures h > D
  {
  }

  /** Above height D there is a boundary block, at height D at least, and it is stored. */
  lemma {:induction false} BoundaryExists(c: Chain, h: Hash)
    requires Stored(c) && h in c.env.blocks && c.env.blocks[h].height >= c.D
    ensures var b := Boundary(To(c.env.blocks[h]), c.D);
            b.Some? && b.value.hash in c.env.blocks && c.env.blocks[b.value.hash] == b.value &&
                b.value.height >= c.D && b.value.prev.To?
    decreases To(c.env.blocks[h])
  {
    var n := c.env.blocks[h];
    assert StoredOk(c, h);
    if n.height % c.D != 0 {
      ModBelow(n.height, c.D);
      BoundaryExists(c, n.prev.node.hash);
    }
  }

  // ---------------------------------------------------------------- the cache

  const MAX_CACHED: nat := 8   // MAX_CACHE_DISTRIBUTE_VOTE_REWARD_BLOCK_COUNT

  type ForkCache = map<Hash, seq<seq<Tx>>>

  ghost predicate Cached(c: Chain, m: ForkCache) {
    forall h :: h in m ==> h in c.env.blocks && m[h] == ListsAt(c, c.env.blocks[h])
  }

  /** The lists after `prev` are not needed, cached, or can be calculated. */
  ghost predicate Obtainable(c: Chain, forks: map<Hash, ForkCache>, prev: Index, b: Index)
    requires b.prev.To?
  {
    b.origin != prev.origin || b.hash in ForkOf(forks, prev.origin) || EndReward(c, b, prev.hash).Some?
  }

  /** When the calculation succeeds. */
  ghost predicate Answered(c: Chain, forks: map<Hash, ForkCache>, prev: Hash, kind: BlockType, height: nat)
    requires Stored(c)
  {
    || Exempt(c, prev, kind, height)
    || (prev in c.env.blocks
        && (KnownHash(c, prev); BoundaryExists(c, prev);
            Obtainable(c, forks, c.env.blocks[prev], Boundary(To(c.env.blocks[prev]), c.D).value)))
  }

  lemma CachedAdd(c: Chain, m: ForkCache, b: Index)
    requires Cached(c, m) && b.hash in c.env.blocks && c.env.blocks[b.hash] == b
    ensures Cached(c, m[b.hash := ListsAt(c, b)])
  {
  }

  function ForkOf(forks: map<Hash, ForkCache>, fork: Hash): ForkCache {
    if fork in forks then forks[fork] else map[]
  }

  /** m' is part of m, and what is missing has smaller keys than those in `rest`. */
  ghost predicate LowestGone(m: ForkCache, m': ForkCache, rest: set<Hash>) {
    && (forall h :: h in m' ==> h in m && m'[h] == m[h])
    && forall x, y :: x in m && x !in m' && y in rest ==> x < y
  }

  lemma LowestStep(m: ForkCache, m': ForkCache, todo: set<Hash>, h: Hash)
    requires LowestGone(m, m', todo) && todo <= m'.Keys && h in todo && forall x :: x in todo ==> h <= x
    ensures LowestGone(m, m', todo - {h}) && LowestGone(m, m' - {h}, todo - {h})
    ensures |m' - {h}| == |m'| - 1
  {
    assert (m' - {h}).Keys == m'.Keys - {h};
  }

  /** mapCacheDistributeVoteReward. */
  class RewardCache {
    const chain: Chain
    var forks: map<Hash, ForkCache>

    ghost predicate Valid()
      reads this
    {
      Stored(chain) && forall f :: f in forks ==> Cached(chain, forks[f])
    }

    constructor (chain: Chain)
      requires Stored(chain)
      ensures Valid() && this.chain == chain && forks == map[]
    {
      this.chain, forks := chain, map[];
    }

    /** Drops entries in key order until eight are left, but never `keep`: the smallest keys go, and no
        more than needed. */
    method Evict(m: ForkCache, keep: Hash) returns (m': ForkCache)
      requires Cached(chain, m)
      ensures Cached(chain, m')
      ensures |m'| == if |m| <= MAX_CACHED then |m| else MAX_CACHED
      ensures keep in m <==> keep in m'
      ensures LowestGone(m, m', m'.Keys - {keep})
    {
      m' := m;
      var todo := m.Keys;
      while |m'| > MAX_CACHED
        invariant Cached(chain, m') && todo <= m'.Keys <= todo + {keep}
        invariant keep in m <==> keep in m'
        invariant |m'| <= |m| && (|m'| == |m| || |m'| >= MAX_CACHED)
        invariant LowestGone(m, m', todo)
        decreases |todo|
      {
        if todo == {} {
          SingleIsSmall(m'.Keys, keep);
        }
        var h := Least(todo);
        LowestStep(m, m', todo, h);
        if h != keep {
          m' := m' - {h};
        }
        todo := todo - {h};
      }
    }

    /** The lists of a boundary block from one fork's cache, or calculated and put there. */
    method Obtain(m: ForkCache, b: Index, prev: Hash) returns (m': ForkCache, r: Option<seq<seq<Tx>>>)
      requires Cached(chain, m) && b.prev.To? && b.hash in chain.env.blocks && chain.env.blocks[b.hash] == b
      ensures Cached(chain, m') && |m'| <= MAX_CACHED + 1
      ensures r.Some? ==> r.value == ListsAt(chain, b)
      ensures r.Some? <==> b.hash in m || EndReward(chain, b, prev).Some?
      ensures r.Some? ==> b.hash in m'
    {
      m' := Evict(m, b.hash);
      if b.hash in m' {
        return m', Some(m'[b.hash]);
      }
      r := Calculate(b, prev);
      if r.Some? {
        EndRewardIsLists(chain, b, prev);
        CachedAdd(chain, m', b);
        m' := m'[b.hash := r.value];
      }
    }

    method ListsFor(b: Index, prev: Hash, fork: Hash) returns (r: Option<seq<seq<Tx>>>)
      requires Valid() && b.prev.To? && b.hash in chain.env.blocks && chain.env.blocks[b.hash] == b
      modifies this
      ensures Valid()
      ensures r.Some? ==> r.value == ListsAt(chain, b)
      ensures r.Some? <==> b.hash in ForkOf(old(forks), fork) || EndReward(chain, b, prev).Some?
      ensures |ForkOf(forks, fork)| <= MAX_CACHED + 1
      ensures r.Some? ==> b.hash in ForkOf(forks, fork)
    {
      var m;
      m, r := Obtain(ForkOf(forks, fork), b, prev);
      forks := forks[fork := m];
    }

    method Calculate(b: Index, prev: Hash) returns (r: Option<seq<seq<Tx>>>)
      requires b.prev.To?
      ensures r == EndReward(chain, b, prev)
    {
      if b.hash !in chain.ends {
        return None;
      }
      var rewards := CalcDistributeVoteReward(b, chain.env, chain.store, chain.D);
      if rewards.None? {
        return None;
      }
      r := CalcEndVoteReward(rewards.value, chain.ends[b.hash], if prev in chain.contexts
          then chain.contexts[prev] else {}, b.height);
    }

    method FindBoundary(prev: Index) returns (b: Option<Index>)
      ensures b == Boundary(To(prev), chain.D)
    {
      var l := To(prev);
      while l.To? && l.node.height % chain.D > 0
        invariant Boundary(To(prev), chain.D) == Boundary(l, chain.D)
        decreases l
      {
        l := l.node.prev;
      }
      return if l.To? then Some(l.node) else None;
    }

    method CountCarriers(prev: Index) returns (count: nat)
      ensures count == Carriers(To(prev), chain.D)
    {
      count := 0;
      var l := To(prev);
      while l.To? && l.node.height % chain.D > 0
        invariant Carriers(To(prev), chain.D) == count + Carriers(l, chain.D)
        decreases l
      {
        if !l.node.kind.Vacant? {
          count := count + 1;
        }
        l := l.node.prev;
      }
    }

    method ListFor(n: Index, b: Index) returns (r: Option<seq<Tx>>)
      requires Valid() && b.prev.To? && b.hash in chain.env.blocks && chain.env.blocks[b.hash] == b
      modifies this
      ensures Valid()
      ensures r == if Obtainable(chain, old(forks), n, b) then Some(ListAfter(chain, n, b)) else None
      ensures r.Some? ==> Obtainable(chain, forks, n, b)
    {
      if b.origin != n.origin {
        return Some([]);
      }
      var list := ListsFor(b, n.hash, n.origin);
      if list.None? {
        return None;
      }
      var i := chain.heightOf(n.hash) % chain.D;
      if !n.IsPrimary() {
        i := CountCarriers(n);
      }
      return Some(ListOrNone(list.value, i));
    }

    /** The transactions the next block must start with, whatever the cache holds. What was answered once
        is answered again. */
    method CalcBlockVoteRewardTx(prev: Hash, kind: BlockType, height: nat) returns (r: Option<seq<Tx>>)
      requires Valid()
      modifies this
      ensures Valid()
      ensures r == if Answered(chain, old(forks), prev, kind, height)
              then Some(DueAfter(chain, prev, kind, height)) else None
      ensures r.Some? ==> Answered(chain, forks, prev, kind, height)
    {
      KnownHash(chain, prev);
      if Exempt(chain, prev, kind, height) {
        return Some([]);
      }
      if prev !in chain.env.blocks {
        return None;
      }
      BoundaryExists(chain, prev);
      var b := FindBoundary(chain.env.blocks[prev]);
      r := ListFor(chain.env.blocks[prev], b.value);
    }

    /** Whether a block starts with the transactions that are due, and how many those are. */
    method VerifyVoteRewardTx(prev: Hash, kind: BlockType, height: nat, vtx: seq<Tx>) returns (count: Option<nat>)
      requires Valid()
      modifies this
      ensures Valid()
      ensures var due := DueAfter(chain, prev, kind, height);
              count == if Answered(chain, old(forks), prev, kind, height) && due <= vtx then Some(|due|) else None
    {
      var due := CalcBlockVoteRewardTx(prev, kind, height);
      if due.None? {
        return None;
      }
      var ok := StartsWith(vtx, due.value);
      return if ok then Some(|due.value|) else None;
    }

    /** The producer's side: the transactions due, then what the pool supplies. VerifyVoteRewardTx accepts
        the result. */
    method ArrangeBlockTx(prev: Hash, kind: BlockType, height: nat, sizes: map<Tx, nat>, room: nat, pool: seq<Tx>)
      returns (vtx: Option<seq<Tx>>)
      requires Valid()
      modifies this
      ensures Valid()
      ensures var due := DueAfter(chain, prev, kind, height);
              vtx == if Answered(chain, old(forks), prev, kind, height) &&
                  SizesOf(sizes, due) <= room then Some(due + pool) else None
      ensures vtx.Some? ==>
                Answered(chain, forks, prev, kind, height) && DueAfter(chain, prev, kind, height) <= vtx.value
    {
      var due := CalcBlockVoteRewardTx(prev, kind, height);
      if due.None? {
        return None;
      }
      var block := Take(due.value, sizes, room);
      return if block.Some? then Some(block.value + pool) else None;
    }
  }

  method StartsWith(vtx: seq<Tx>, due: seq<Tx>) returns (ok: bool)
    ensures ok <==> due <= vtx
  {
    if |vtx| < |due| {
      return false;
    }
    var i := 0;
    while i < |due|
      invariant 0 <= i <= |due|
      invariant due[..i] == vtx[..i]
    {
      if due[i] != vtx[i] {
        return false;
      }
      i := i + 1;
    }
    assert due[..i] == due;
    return true;
  }

  function SizeOf(sizes: map<Tx, nat>, tx: Tx): nat {
    if tx in sizes then sizes[tx] else 0
  }

  ghost function SizesOf(sizes: map<Tx, nat>, txs: seq<Tx>): nat {
    if txs == [] then 0 else SizesOf(sizes, txs[..|txs|-1]) + SizeOf(sizes, txs[|txs|-1])
  }

  lemma {:induction false} PrefixSize(sizes: map<Tx, nat>, txs: seq<Tx>, i: nat)
    requires i <= |txs|
    ensures SizesOf(sizes, txs[..i]) <= SizesOf(sizes, txs)
    decreases |txs|
  {
    if i == |txs| {
      assert txs[..i] == txs;
    } else {
      assert txs[..|txs|-1][..i] == txs[..i];
      PrefixSize(sizes, txs[..|txs|-1], i);
    }
  }

  /** All of the transactions, or nothing when they do not fit. */
  method Take(due: seq<Tx>, sizes: map<Tx, nat>, room: nat) returns (block: Option<seq<Tx>>)
    ensures block == if SizesOf(sizes, due) <= room then Some(due) else None
  {
    var taken, size := [], 0;
    var i := 0;
    while i < |due|
      invariant 0 <= i <= |due| && taken == due[..i]
      invariant size == SizesOf(sizes, due[..i]) <= room
    {
      SizesStep(sizes, due, i);
      if size + SizeOf(sizes, due[i]) > room {
        PrefixSize(sizes, due, i + 1);
        return None;
      }
      taken := taken + [due[i]];
      size := size + SizeOf(sizes, due[i]);
      i := i + 1;
    }
    assert due[..i] == due;
    return Some(taken);
  }

  lemma SizesStep(sizes: map<Tx, nat>, txs: seq<Tx>, i: nat)
    requires i < |txs|
    ensures SizesOf(sizes, txs[..i+1]) == SizesOf(sizes, txs[..i]) + SizeOf(sizes, txs[i])
  {
    assert txs[..i+1][..i] == txs[..i];
  }

  lemma SingleIsSmall(s: set<Hash>, keep: Hash)
    requires s <= {keep}
    ensures |s| <= 1
  {
    if s != {} {
      assert s == {keep};
    }
  }

  lemma KnownHash(c: Chain, h: Hash)
    requires Stored(c)
    ensures h in c.env.blocks ==> c.env.blocks[h].hash == h && c.env.blocks[h].height == c.heightOf(h)
  {
    if h in c.env.blocks {
      assert StoredOk(c, h);
    }
  }

  // ---------------------------------------------------------------- accepted branches

  predicate NoRewards(txs: seq<Tx>) {
    forall i :: 0 <= i < |txs| ==> !txs[i].kind.VoteRewardTx?
  }

  /** The vote-reward transactions among txs. */
  ghost function RewardsIn(txs: seq<Tx>): seq<Tx> {
    if txs == [] then []
    else
      var n := |txs| - 1;
      RewardsIn(txs[..n]) + if txs[n].kind.VoteRewardTx? then [txs[n]] else []
  }

  /** What VerifyVoteRewardTx and VerifyBlockTx together demand of a block's reward transactions. */
  ghost predicate Starts(vtx: seq<Tx>, due: seq<Tx>) {
    due <= vtx && NoRewards(vtx[|due|..]) && forall i :: 0 <= i < |due| ==> due[i].kind.VoteRewardTx?
  }

  /** A block that passes both verifications starts with the rewards due and has no others. */
  lemma VerifiedStarts(store: Ledger.Accounts, vtx: seq<Tx>, due: seq<Tx>, refused: set<Tx>)
    requires due <= vtx && Ledger.Run(store, vtx, |due|, refused).Done?
    ensures Starts(vtx, due)
  {
    Ledger.KindsSeparated(store, vtx, |due|, refused);
    assert forall i :: 0 <= i < |due| ==> due[i] == vtx[i];
  }

  /** No vote-reward transaction other than those due is accepted. */
  lemma {:induction false} AcceptedRewards(vtx: seq<Tx>, due: seq<Tx>)
    requires Starts(vtx, due)
    ensures RewardsIn(vtx) == due
    decreases |vtx|
  {
    if vtx != [] {
      var n := |vtx| - 1;
      if |due| == |vtx| {
        assert due == vtx;
        AcceptedRewards(vtx[..n], due[..n]);
      } else {
        assert vtx[|due|..][n - |due|] == vtx[n];
        assert vtx[..n][|due|..] == vtx[|due|..][..n - |due|];
        AcceptedRewards(vtx[..n], due);
      }
    }
  }

  /** Every block of the branch above the root was accepted with its transactions in `bodies`. */
  ghost predicate Accepted(c: Chain, bodies: map<Hash, seq<Tx>>, l: Link) {
    l.To? && l.node.prev.To? ==>
      && l.node.hash in bodies
      && Starts(bodies[l.node.hash], RewardDue(c, l.node.prev.node, l.node.kind, l.node.height))
      && Accepted(c, bodies, l.node.prev)
  }

  /** The vote-reward transactions above the boundary, oldest block first. */
  ghost function Released(bodies: map<Hash, seq<Tx>>, l: Link, D: Length): seq<Tx> {
    if l.Null? || l.node.height % D == 0 then []
    else Released(bodies, l.node.prev, D) + if l.node.hash in bodies then RewardsIn(bodies[l.node.hash]) else []
  }

  /** From l down to its boundary block all blocks belong to one fork, and are all primary blocks or
      all blocks of a sub-fork. */
  ghost predicate OneFork(l: Link, D: Length, origin: Hash, primary: bool) {
    && l.To? && l.node.origin == origin && l.node.IsPrimary() == primary
    && (l.node.height % D != 0 ==>
      !l.node.kind.Origin? && !l.node.kind.Genesis? && OneFork(l.node.prev, D, origin, primary))
  }

  ghost predicate Linked(c: Chain, l: Link) {
    l.To? ==> l.node.hash in c.env.blocks && c.env.blocks[l.node.hash] == l.node
  }

  lemma NextResidue(a: nat, b: nat, D: Length)
    requires b == a + 1 && b % D != 0
    ensures b % D == a % D + 1
  {
    DivStep(a, D);
  }

  ghost predicate PrimarySteps(l: Link) {
    l.To? && l.node.prev.To? ==>
      (l.node.IsPrimary() ==> l.node.height == l.node.prev.node.height + 1) && PrimarySteps(l.node.prev)
  }

  /** On the primary chain the list index, the height above the boundary, counts the carriers too. */
  lemma {:induction false} PrimaryIndex(l: Link, D: Length, origin: Hash)
    requires OneFork(l, D, origin, true) && PrimarySteps(l)
    ensures Carriers(l, D) == l.node.height % D
  {
    if l.node.height % D != 0 {
      PrimaryIndex(l.node.prev, D, origin);
      NextResidue(l.node.prev.node.height, l.node.height, D);
    }
  }

  lemma IndexIsCarriers(c: Chain, l: Link, origin: Hash, primary: bool)
    requires OneFork(l, c.D, origin, primary) && PrimarySteps(l) && Stored(c) && Linked(c, l)
    ensures ListIndex(c, l.node) == Carriers(l, c.D)
  {
    KnownHash(c, l.node.hash);
    if primary {
      PrimaryIndex(l, c.D, origin);
    }
  }

  ghost predicate Above(c: Chain, l: Link, origin: Hash, primary: bool) {
    Stored(c) && Linked(c, l) && OneFork(l, c.D, origin, primary) && PrimarySteps(l) && l.node.height >= c.D
  }

  lemma AbovePrev(c: Chain, l: Link, origin: Hash, primary: bool)
    requires Above(c, l, origin, primary) && l.node.height % c.D != 0
    ensures Above(c, l.node.prev, origin, primary)
  {
    assert StoredOk(c, l.node.hash);
    ModBelow(l.node.height, c.D);
  }

  lemma {:induction false} BoundaryFork(l: Link, D: Length, origin: Hash, primary: bool)
    requires OneFork(l, D, origin, primary)
    ensures Boundary(l, D).Some? && Boundary(l, D).value.origin == origin
  {
    if l.node.height % D != 0 {
      BoundaryFork(l.node.prev, D, origin, primary);
    }
  }

  /** A block above the boundary must release the list that counts the carriers below it. */
  lemma DueAbove(c: Chain, l: Link, origin: Hash, primary: bool)
    requires Above(c, l, origin, primary) && l.node.height % c.D != 0
    ensures Boundary(l, c.D).Some?
    ensures RewardDue(c, l.node.prev.node, l.node.kind, l.node.height)
            == if l.node.kind.Vacant? then [] else ListOrNone(ListsAt(c, Boundary(l, c.D).value),
                Carriers(l.node.prev, c.D))
  {
    var p := l.node.prev;
    AbovePrev(c, l, origin, primary);
    KnownHash(c, p.node.hash);
    BoundaryFork(p, c.D, origin, primary);
    IndexIsCarriers(c, p, origin, primary);
  }

  function Min(a: nat, b: nat): nat { if a < b then a else b }

  /** Exactly-once release: at every block of an accepted branch the reward transactions since the
      boundary are the first lists in order, one for each non-vacant block. */
  lemma {:induction false} ReleasedExactly(c: Chain, bodies: map<Hash, seq<Tx>>, l: Link, origin: Hash, primary: bool)
    requires Above(c, l, origin, primary) && Accepted(c, bodies, l)
    ensures Boundary(l, c.D).Some?
    ensures var list := ListsAt(c, Boundary(l, c.D).value);
            Released(bodies, l, c.D) == Concat(list[..Min(Carriers(l, c.D), |list|)])
    decreases l
  {
    if l.node.height % c.D != 0 {
      var p := l.node.prev;
      AbovePrev(c, l, origin, primary);
      ReleasedExactly(c, bodies, p, origin, primary);
      DueAbove(c, l, origin, primary);
      AcceptedRewards(bodies[l.node.hash], RewardDue(c, p.node, l.node.kind, l.node.height));
      if !l.node.kind.Vacant? {
        ConcatNext(ListsAt(c, Boundary(l, c.D).value), Carriers(p, c.D));
      }
    }
  }

  lemma ConcatNext(list: seq<seq<Tx>>, k: nat)
    ensures Concat(list[..Min(k + 1, |list|)]) == Concat(list[..Min(k, |list|)]) + ListOrNone(list, k)
  {
    if k < |list| {
      assert list[..k+1][..k] == list[..k];
    }
  }

  // ---------------------------------------------------------------- what the lists hold

  /** Vote-reward transactions without sender and fee. */
  ghost predicate AllRewards(txs: seq<Tx>) {
    forall i :: 0 <= i < |txs| ==> txs[i].kind.VoteRewardTx? && txs[i].from == 0 && txs[i].fee == 0
  }

  ghost predicate ListsOfRewards(list: seq<seq<Tx>>) {
    forall j :: 0 <= j < |list| ==> AllRewards(list[j])
  }

  lemma {:induction false} FillRewards(txs: seq<Tx>, max: nat, count: nat)
    requires max > 0 && AllRewards(txs) && forall i :: 0 <= i < |txs| ==> i / max < count
    ensures ListsOfRewards(Fill(txs, max, count))
  {
    if txs != [] {
      FillRewards(txs[..|txs|-1], max, count);
    }
  }

  lemma PayeeRewards(m: Payees, keys: seq<Dest>, height: nat, max: nat)
    requires max > 0 && forall k :: k in keys ==> k in m
    ensures ListsOfRewards(Chunks(RewardTxs(m, keys, height), max)) &&
            WellCut(Chunks(RewardTxs(m, keys, height), max), max)
  {
    var txs := RewardTxs(m, keys, height);
    RewardTxsAt(m, keys, height);
    AllInRange(|txs|, max);
    FillRewards(txs, max, Count(|txs|, max));
    ChunksExact(txs, max);
  }

  /** The lists of a boundary hold nothing but vote-reward transactions, and none is empty. */
  lemma ListsAtRewards(c: Chain, b: Index)
    ensures ListsOfRewards(ListsAt(c, b)) && forall j :: 0 <= j < |ListsAt(c, b)| ==> ListsAt(c, b)[j] != []
  {
    if ListsAt(c, b) != [] {
      var env := c.ends[b.hash];
      var m := PayeesOf(PeriodRewards(b, c.env, c.store, c.D).value, env).value;
      PayeeRewards(m, Ascending(m.Keys), b.height, env.max);
      assert ListsAt(c, b) == Chunks(RewardTxs(m, Ascending(m.Keys), b.height), env.max);
    }
  }

  lemma DueRewards(c: Chain, prev: Hash, kind: BlockType, height: nat)
    ensures AllRewards(DueAfter(c, prev, kind, height))
  {
    if DueAfter(c, prev, kind, height) != [] {
      ListsAtRewards(c, Boundary(To(c.env.blocks[prev]), c.D).value);
    }
  }

  /** What the producer arranges is what the verifier demands. */
  lemma ProducerStarts(c: Chain, prev: Hash, kind: BlockType, height: nat, pool: seq<Tx>)
    requires NoRewards(pool)
    ensures Starts(DueAfter(c, prev, kind, height) + pool, DueAfter(c, prev, kind, height))
  {
    var due := DueAfter(c, prev, kind, height);
    DueRewards(c, prev, kind, height);
    assert (due + pool)[|due|..] == pool;
  }

  // ---------------------------------------------------------------- complete release

  lemma {:induction false} ConcatPrefix(list: seq<seq<Tx>>, k: nat)
    requires k <= |list|
    ensures Concat(list[..k]) <= Concat(list)
    ensures k < |list| && list[|list|-1] != [] ==> Concat(list[..k]) < Concat(list)
    decreases |list|
  {
    if k == |list| {
      assert list[..k] == list;
    } else {
      var init := list[..|list|-1];
      assert init[..k] == list[..k];
      ConcatPrefix(init, k);
    }
  }

  lemma PrefixIsAllIff(list: seq<seq<Tx>>, k: nat)
    requires forall j :: 0 <= j < |list| ==> list[j] != []
    ensures Concat(list[..Min(k, |list|)]) == Concat(list) <==> |list| <= k
  {
    ConcatPrefix(list, Min(k, |list|));
    assert list[..|list|] == list;
  }

  /** Everything is out exactly when there were as many non-vacant blocks as lists. */
  lemma AllReleasedIff(c: Chain, bodies: map<Hash, seq<Tx>>, l: Link, origin: Hash, primary: bool)
    requires Above(c, l, origin, primary) && Accepted(c, bodies, l)
    ensures Boundary(l, c.D).Some?
    ensures var list := ListsAt(c, Boundary(l, c.D).value);
            Released(bodies, l, c.D) == Concat(list) <==> |list| <= Carriers(l, c.D)
  {
    ReleasedExactly(c, bodies, l, origin, primary);
    ListsAtRewards(c, Boundary(l, c.D).value);
    PrefixIsAllIff(ListsAt(c, Boundary(l, c.D).value), Carriers(l, c.D));
  }

  /** The primary chain has D - 1 blocks before the next boundary: with D or more lists the rest is
      never released. */
  lemma PrimaryReleasesAllIff(c: Chain, bodies: map<Hash, seq<Tx>>, l: Link, origin: Hash)
    requires Above(c, l, origin, true) && Accepted(c, bodies, l) && l.node.height % c.D == c.D - 1
    ensures Boundary(l, c.D).Some?
    ensures var list := ListsAt(c, Boundary(l, c.D).value);
            Released(bodies, l, c.D) == Concat(list) <==> |list| < c.D
  {
    AllReleasedIff(c, bodies, l, origin, true);
    PrimaryIndex(l, c.D, origin);
  }

  /** How many lists a boundary has: as many as its recipients fill. */
  lemma ListCount(c: Chain, b: Index)
    requires b.hash in c.ends && (b.IsPrimary() ==> b.prev.To?) && PeriodRewards(b, c.env, c.store, c.D).Some?
    requires PayeesOf(PeriodRewards(b, c.env, c.store, c.D).value, c.ends[b.hash]).Some? && c.ends[b.hash].max > 0
    ensures |ListsAt(c, b)|
            == Count(|PayeesOf(PeriodRewards(b, c.env, c.store, c.D).value, c.ends[b.hash]).value|, c.ends[b.hash].max)
  {
    var m := PayeesOf(PeriodRewards(b, c.env, c.store, c.D).value, c.ends[b.hash]).value;
    if m == map[] {
      DivUnique(0, 0, 0, c.ends[b.hash].max);
    } else {
      ListsSize(m, b.height, c.ends[b.hash].max);
    }
  }

  /** The other side: with one reward transaction to a block, a period of D heights cannot pay D
      recipients. What the primary chain has released before the next boundary misses the rest. */
  lemma LateListsLost(c: Chain, bodies: map<Hash, seq<Tx>>, l: Link, origin: Hash, b: Index)
    requires Above(c, l, origin, true) && Accepted(c, bodies, l) && l.node.height % c.D == c.D - 1
    requires Boundary(l, c.D) == Some(b) && b.prev.To? && b.hash in c.ends && c.ends[b.hash].max == 1
    requires PeriodRewards(b, c.env, c.store, c.D).Some? &&
             PayeesOf(PeriodRewards(b, c.env, c.store, c.D).value, c.ends[b.hash]).Some?
    requires |PayeesOf(PeriodRewards(b, c.env, c.store, c.D).value, c.ends[b.hash]).value| >= c.D
    ensures Released(bodies, l, c.D) < Concat(ListsAt(c, b))
  {
    ListCount(c, b);
    ReleasedExactly(c, bodies, l, origin, true);
    PrimaryIndex(l, c.D, origin);
    ListsAtRewards(c, b);
    ConcatPrefix(ListsAt(c, b), Min(Carriers(l, c.D), |ListsAt(c, b)|));
  }

  // ---------------------------------------------------------------- the pipeline as a whole

  lemma TotalOfPrefix(a: seq<Tx>, b: seq<Tx>)
    requires a <= b
    ensures TxTotal(a) <= TxTotal(b) && (InOrder(b) ==> InOrder(a))
  {
    assert b == a + b[|a|..];
    TxTotalAppend(a, b[|a|..]);
  }

  ghost predicate PeriodFits(c: Chain, b: Index)
    requires (b.IsPrimary() ==> b.prev.To?) && PeriodRewards(b, c.env, c.store, c.D).Some?
  {
    && HeightsOk(To(b)) && RatiosOk(c.env)
    && Fits(PeriodTotal(b, c.D), DayOf(b, c.store, c.D).value, b.height - c.D, c.D)
    && (b.hash in c.ends ==> PayeesFit(PeriodRewards(b, c.env, c.store, c.D).value, c.ends[b.hash]))
  }

  ghost predicate PayeesFit(r: Rewards, env: RewardEnv) {
    PayeesOf(r, env).Some? ==> |PayeesOf(r, env).value| <= TWO32
  }

  lemma ListsWithin(c: Chain, b: Index)
    requires (b.IsPrimary() ==> b.prev.To?) && PeriodRewards(b, c.env, c.store, c.D).Some? && PeriodFits(c, b)
    ensures TxTotal(Concat(ListsAt(c, b))) <= PeriodTotal(b, c.D) && InOrder(Concat(ListsAt(c, b)))
  {
    PeriodConserves(b, c.env, c.store, c.D);
    if ListsAt(c, b) != [] {
      var r := PeriodRewards(b, c.env, c.store, c.D).value;
      var env := c.ends[b.hash];
      RegroupTotal(r, env);
      ListsPay(PayeesOf(r, env).value, b.height, env.max);
    }
  }

  /** From block rewards to released transactions: an accepted branch never releases more than the
      rewards of the period below its boundary, and pays no recipient twice. */
  lemma ReleasedWithinPeriod(c: Chain, bodies: map<Hash, seq<Tx>>, l: Link, origin: Hash, primary: bool, b: Index)
    requires Above(c, l, origin, primary) && Accepted(c, bodies, l) && Boundary(l, c.D) == Some(b)
    requires (b.IsPrimary() ==> b.prev.To?) && PeriodRewards(b, c.env, c.store, c.D).Some? && PeriodFits(c, b)
    ensures TxTotal(Released(bodies, l, c.D)) <= PeriodTotal(b, c.D) && InOrder(Released(bodies, l, c.D))
  {
    var list := ListsAt(c, b);
    ReleasedExactly(c, bodies, l, origin, primary);
    ListsWithin(c, b);
    ConcatPrefix(list, Min(Carriers(l, c.D), |list|));
    TotalOfPrefix(Released(bodies, l, c.D), Concat(list));
  }
}
