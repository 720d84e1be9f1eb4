/** CBlockChain::CalcDistributeVoteReward (src/blockchain/blockchain.cpp) and the day-vote walk of
    src/storage/votedb.cpp: the rewards of one period are collected from the blocks of a branch and
    handed out height by height. */
module RewardPeriod {
  import opened Common
  import opened BlockTree
  import opened VoteReward

  // ---------------------------------------------------------------- votes of a day

  /** A voter's new vote and the delegate it goes to. */
  datatype Change = Change(delegate: Dest, vote: Vote)

  /** The votes at the first height and the changes of each later height. */
  datatype DayVotes = DayVotes(first: map<Dest, map<Dest, Vote>>, changes: map<nat, map<Dest, Change>>)

  type FullVotes = map<Dest, DelegateVotes>

  ghost function VoteAmounts(votes: map<Dest, Vote>): map<Dest, nat> {
    map k | k in votes :: votes[k].amount
  }

  ghost function VoteTotal(votes: map<Dest, Vote>): nat {
    Total(VoteAmounts(votes))
  }

  /** Every recorded total is the sum of the delegate's votes, in 256-bit arithmetic. */
  ghost predicate TotalsMatch(full: FullVotes) {
    forall d :: d in full ==> full[d].total == VoteTotal(full[d].votes) % WORD
  }

  function AmountOf(votes: map<Dest, Vote>, k: Dest): nat {
    if k in votes then votes[k].amount else 0
  }

  /** A delegate's votes with one voter's vote replaced: the total follows the difference. */
  function Revised(dv: DelegateVotes, voter: Dest, vote: Vote): DelegateVotes {
    var before := AmountOf(dv.votes, voter);
    DelegateVotes(dv.votes[voter := vote],
                  if before <= vote.amount then Add(dv.total, vote.amount - before)
                      else Sub(dv.total, before - vote.amount))
  }

  function VotesFor(full: FullVotes, d: Dest): DelegateVotes {
    if d in full then full[d] else DelegateVotes(map[], 0)
  }

  /** One change of a height. */
  function Applied(full: FullVotes, voter: Dest, c: Change): FullVotes {
    full[c.delegate := Revised(VotesFor(full, c.delegate), voter, c.vote)]
  }

  lemma ModStep(total: nat, sum: nat, before: nat, after: nat)
    requires total == sum % WORD && before <= sum
    ensures before <= after ==> Add(total, after - before) == (sum - before + after) % WORD
    ensures before > after ==> Sub(total, before - after) == (sum - before + after) % WORD
  {
    var q := sum / WORD;
    assert sum == q * WORD + total;
    if before <= after {
      ModShift(total + (after - before), q);
    } else {
      ModShift(total - (before - after), q);
    }
  }

  lemma {:induction false} ModShift(x: int, q: nat)
    ensures x % WORD == (x + q * WORD) % WORD
    decreases q
  {
    if q > 0 {
      ModShift(x, q - 1);
      assert x + q * WORD == (x + (q - 1) * WORD) + WORD;
    }
  }

  lemma RevisedMatches(dv: DelegateVotes, voter: Dest, vote: Vote)
    requires dv.total == VoteTotal(dv.votes) % WORD
    ensures Revised(dv, voter, vote).total == VoteTotal(Revised(dv, voter, vote).votes) % WORD
  {
    assert VoteAmounts(dv.votes[voter := vote]) == VoteAmounts(dv.votes)[voter := vote.amount];
    TotalUpdate(VoteAmounts(dv.votes), voter, vote.amount);
    if voter in dv.votes {
      TotalAtLeast(VoteAmounts(dv.votes), voter);
    }
    ModStep(dv.total, VoteTotal(dv.votes), AmountOf(dv.votes, voter), vote.amount);
  }

  lemma AppliedMatches(full: FullVotes, voter: Dest, c: Change)
    requires TotalsMatch(full)
    ensures TotalsMatch(Applied(full, voter, c))
  {
    assert VoteAmounts(map[]) == map[];
    RevisedMatches(VotesFor(full, c.delegate), voter, c.vote);
  }

  /** All changes of a height, in key order. */
  function AppliedAll(full: FullVotes, voters: seq<Dest>, cs: map<Dest, Change>): FullVotes
    requires forall k :: k in voters ==> k in cs
  {
    if voters == [] then full
    else
      var k := voters[|voters|-1];
      Applied(AppliedAll(full, voters[..|voters|-1], cs), k, cs[k])
  }

  lemma {:induction false} AppliedAllMatches(full: FullVotes, voters: seq<Dest>, cs: map<Dest, Change>)
    requires TotalsMatch(full) && forall k :: k in voters ==> k in cs
    ensures TotalsMatch(AppliedAll(full, voters, cs))
  {
    if voters != [] {
      var k := voters[|voters|-1];
      AppliedAllMatches(full, voters[..|voters|-1], cs);
      AppliedMatches(AppliedAll(full, voters[..|voters|-1], cs), k, cs[k]);
    }
  }

  ghost function FirstVotes(first: map<Dest, map<Dest, Vote>>): FullVotes {
    map d | d in first :: DelegateVotes(first[d], VoteTotal(first[d]) % WORD)
  }

  function NextVotes(full: FullVotes, day: DayVotes, h: nat): FullVotes {
    if h in day.changes then AppliedAll(full, Ascending(day.changes[h].Keys), day.changes[h]) else full
  }

  /** The votes at the n-th height of the day. */
  ghost function VotesAt(day: DayVotes, begin: nat, n: nat): FullVotes {
    if n == 0 then FirstVotes(day.first) else NextVotes(VotesAt(day, begin, n - 1), day, begin + n)
  }

  /** At every height of the day every delegate's total is the sum of its votes. */
  lemma {:induction false} VotesAtMatch(day: DayVotes, begin: nat, n: nat)
    ensures TotalsMatch(VotesAt(day, begin, n))
  {
    if n > 0 {
      VotesAtMatch(day, begin, n - 1);
      if begin + n in day.changes {
        var cs := day.changes[begin + n];
        AppliedAllMatches(VotesAt(day, begin, n - 1), Ascending(cs.Keys), cs);
      }
    }
  }

  /** A voter's vote for a delegate, if it has one. */
  function LookVote(full: FullVotes, d: Dest, v: Dest): Option<Vote> {
    if d in full && v in full[d].votes then Some(full[d].votes[v]) else None
  }

  lemma {:induction false} AppliedAllLook(full: FullVotes, voters: seq<Dest>, cs: map<Dest, Change>, d: Dest, v: Dest)
    requires forall k :: k in voters ==> k in cs
    ensures LookVote(AppliedAll(full, voters, cs), d, v)
            == if v in voters && cs[v].delegate == d then Some(cs[v].vote) else LookVote(full, d, v)
  {
    if voters != [] {
      var n := |voters| - 1;
      AppliedAllLook(full, voters[..n], cs, d, v);
      assert v in voters <==> v in voters[..n] || v == voters[n];
    }
  }

  /** The changes of the n-th height give v a new vote for d. */
  predicate Changes(day: DayVotes, begin: nat, n: nat, d: Dest, v: Dest) {
    begin + n in day.changes && v in day.changes[begin + n] && day.changes[begin + n][v].delegate == d
  }

  lemma {:induction false} VoteStays(day: DayVotes, begin: nat, m: nat, n: nat, d: Dest, v: Dest)
    requires m <= n && forall j :: m < j <= n ==> !Changes(day, begin, j, d, v)
    ensures LookVote(VotesAt(day, begin, n), d, v) == LookVote(VotesAt(day, begin, m), d, v)
    decreases n
  {
    if m < n {
      VoteStays(day, begin, m, n - 1, d, v);
      assert !Changes(day, begin, n, d, v);
      if begin + n in day.changes {
        var cs := day.changes[begin + n];
        AppliedAllLook(VotesAt(day, begin, n - 1), Ascending(cs.Keys), cs, d, v);
      }
    }
  }

  /** A voter's vote for a delegate at a height is the one of the last change at or below that height. */
  lemma VoteIsLastChange(day: DayVotes, begin: nat, m: nat, n: nat, d: Dest, v: Dest)
    requires 1 <= m <= n && Changes(day, begin, m, d, v)
    requires forall j :: m < j <= n ==> !Changes(day, begin, j, d, v)
    ensures LookVote(VotesAt(day, begin, n), d, v) == Some(day.changes[begin + m][v].vote)
  {
    VoteStays(day, begin, m, n, d, v);
    var cs := day.changes[begin + m];
    AppliedAllLook(VotesAt(day, begin, m - 1), Ascending(cs.Keys), cs, d, v);
  }

  /** Before any change it is the vote of the day's first height. */
  lemma VoteIsFirst(day: DayVotes, begin: nat, n: nat, d: Dest, v: Dest)
    requires forall j :: 0 < j <= n ==> !Changes(day, begin, j, d, v)
    ensures LookVote(VotesAt(day, begin, n), d, v)
            == if d in day.first && v in day.first[d] then Some(day.first[d][v]) else None
  {
    VoteStays(day, begin, 0, n, d, v);
  }

  lemma VoteTotalRemove(votes: map<Dest, Vote>, k: Dest)
    requires k in votes
    ensures VoteTotal(votes) == VoteTotal(votes - {k}) + votes[k].amount
  {
    assert VoteAmounts(votes - {k}) == VoteAmounts(votes) - {k};
    TotalRemove(VoteAmounts(votes), k);
  }

  lemma {:induction false} VotesOfIsSum(keys: seq<Dest>, votes: map<Dest, Vote>)
    requires forall k :: k in keys ==> k in votes
    ensures VotesOf(keys, votes) == SumAlong(VoteAmounts(votes), keys)
  {
    if keys != [] {
      VotesOfIsSum(keys[..|keys|-1], votes);
    }
  }

  // ---------------------------------------------------------------- collecting the period's rewards

  /** What the node can look up: block headers by hash, and a delegate's commission at a primary block. */
  datatype Lookups = Lookups(blocks: map<Hash, Index>, ratios: map<(Hash, Dest), nat>, addr: Addresses)

  /** The vote database: the primary chain by height, and the votes of a period by its first and last
      primary block. */
  datatype VoteStore = VoteStore(primary: map<nat, Hash>, days: map<(Hash, Hash), DayVotes>)

  /** VOTE_REWARD_DISTRIBUTE_HEIGHT, which differs between networks. */
  type Length = n: nat | n > 0 witness 1

  datatype Collected = Collected(due: map<nat, CalcBlock>, rewards: Rewards)

  /** Stake blocks of the primary chain, and subsidiary and extended blocks. */
  predicate Rewarded(n: Index) {
    if n.IsPrimary() then !n.work else n.kind.Subsidiary? || n.kind.Extended?
  }

  predicate Work(n: Index) {
    n.IsPrimary() && n.work
  }

  /** The primary block whose votes apply: the block itself or its reference. */
  function PrimaryOf(n: Index, env: Lookups): Option<Index> {
    if n.IsPrimary() then Some(n)
    else if n.ref in env.blocks && env.blocks[n.ref].mint == n.mint then Some(env.blocks[n.ref])
    else None
  }

  /** One block. The first block met at a height fixes the delegate and its commission. */
  function CollectOne(n: Index, env: Lookups, acc: Collected): Option<Collected> {
    if Rewarded(n) then
      if n.height in acc.due then
        Some(acc.(due := acc.due[n.height := acc.due[n.height].(amount := Add(acc.due[n.height].amount, n.reward))]))
      else
        match PrimaryOf(n, env)
        case None => None
        case Some(p) =>
          if (p.hash, n.mint) !in env.ratios then None
          else Some(acc.(due := acc.due[n.height := CalcBlock(n.mint, env.ratios[(p.hash, n.mint)], Add(0, n.reward))]))
    else if Work(n) && n.reward > 0 then
      Some(acc.(rewards := Credit(acc.rewards, env.addr.surplus, env.addr.surplus, n.reward)))
    else Some(acc)
  }

  predicate Stops(l: Link, begin: int) {
    l.Null? || l.node.prev.Null? || l.node.IsOrigin() || l.node.height < begin
  }

  function Collect(l: Link, begin: int, env: Lookups, acc: Collected): Option<Collected> {
    if Stops(l, begin) then Some(acc)
    else
      match CollectOne(l.node, env, acc)
      case None => None
      case Some(acc') => Collect(l.node.prev, begin, env, acc')
  }

  /** The rewards of the blocks that are walked. */
  ghost function Collectable(l: Link, begin: int): nat {
    if Stops(l, begin) then 0
    else (if Rewarded(l.node) || Work(l.node) then l.node.reward else 0) + Collectable(l.node.prev, begin)
  }

  ghost function CalcAmounts(due: map<nat, CalcBlock>): map<nat, nat> {
    map h | h in due :: due[h].amount
  }

  ghost function Held(acc: Collected): nat {
    Total(CalcAmounts(acc.due)) + Sum(acc.rewards)
  }

  lemma CalcUpdate(due: map<nat, CalcBlock>, h: nat, b: CalcBlock)
    ensures Total(CalcAmounts(due[h := b])) == Total(CalcAmounts(due)) - (if h in due then due[h].amount else 0) +
            b.amount
    ensures h in due ==> due[h].amount <= Total(CalcAmounts(due))
  {
    assert CalcAmounts(due[h := b]) == CalcAmounts(due)[h := b.amount];
    TotalUpdate(CalcAmounts(due), h, b.amount);
    if h in due {
      TotalAtLeast(CalcAmounts(due), h);
    }
  }

  lemma CollectOneHolds(n: Index, env: Lookups, acc: Collected)
    requires CollectOne(n, env, acc).Some?
    requires Rewarded(n) || Work(n) ==> Held(acc) + n.reward < WORD
    ensures Held(CollectOne(n, env, acc).value) == Held(acc) + (if Rewarded(n) || Work(n) then n.reward else 0)
  {
    if Rewarded(n) {
      CalcUpdate(acc.due, n.height, CollectOne(n, env, acc).value.due[n.height]);
    } else if Work(n) && n.reward > 0 {
      CreditSum(acc.rewards, env.addr.surplus, env.addr.surplus, n.reward);
    }
  }

  /** Collecting conserves: the heights' amounts and the surplus entry hold exactly the rewards met. */
  lemma {:induction false} CollectHolds(l: Link, begin: int, env: Lookups, acc: Collected)
    requires Collect(l, begin, env, acc).Some?
    requires Held(acc) + Collectable(l, begin) < WORD
    ensures Held(Collect(l, begin, env, acc).value) == Held(acc) + Collectable(l, begin)
  {
    if !Stops(l, begin) {
      CollectOneHolds(l.node, env, acc);
      CollectHolds(l.node.prev, begin, env, CollectOne(l.node, env, acc).value);
    }
  }

  function DueAt(due: map<nat, CalcBlock>, h: nat): nat {
    if h in due then due[h].amount else 0
  }

  /** The rewards to distribute of the blocks walked at one height. */
  ghost function RewardsAt(l: Link, begin: int, h: nat): nat {
    if Stops(l, begin) then 0
    else (if Rewarded(l.node) && l.node.height == h then l.node.reward else 0) + RewardsAt(l.node.prev, begin, h)
  }

  /** Every height is due exactly the rewards of its own blocks. */
  lemma {:induction false} CollectAt(l: Link, begin: int, env: Lookups, acc: Collected, h: nat)
    requires Collect(l, begin, env, acc).Some? && DueAt(acc.due, h) + RewardsAt(l, begin, h) < WORD
    ensures DueAt(Collect(l, begin, env, acc).value.due, h) == DueAt(acc.due, h) + RewardsAt(l, begin, h)
  {
    if !Stops(l, begin) {
      var acc' := CollectOne(l.node, env, acc).value;
      assert DueAt(acc'.due, h) == DueAt(acc.due, h) + if Rewarded(l.node) &&
          l.node.height == h then l.node.reward else 0;
      CollectAt(l.node.prev, begin, env, acc', h);
    }
  }

  // What a branch earns, told from its blocks alone.

  /** The fork's first block, or nothing. */
  ghost predicate ForkEnd(l: Link) {
    l.Null? || l.node.prev.Null? || l.node.kind.Genesis? || l.node.kind.Origin?
  }

  /** Blocks whose reward is distributed: primary blocks not mined by work, subsidiary and extended ones. */
  ghost predicate Earns(n: Index) {
    match n.kind
    case Genesis => !n.work
    case Primary => !n.work
    case Subsidiary => true
    case Extended => true
    case _ => false
  }

  /** What the blocks of one height on a branch earn. */
  ghost function EarnedAt(l: Link, h: nat): nat {
    if ForkEnd(l) then 0
    else (if Earns(l.node) && l.node.height == h then l.node.reward else 0) + EarnedAt(l.node.prev, h)
  }

  /** What the mined primary blocks from a height on earn. */
  ghost function MinedFrom(l: Link, begin: int): nat {
    if ForkEnd(l) then 0
    else (if l.node.kind.Primary? && l.node.work && l.node.height >= begin then l.node.reward else 0)
         + MinedFrom(l.node.prev, begin)
  }

  /** The highest block of one height that earns anything. */
  ghost function FirstMet(l: Link, h: nat): Option<Index> {
    if ForkEnd(l) then None
    else if Earns(l.node) && l.node.height == h then Some(l.node) else FirstMet(l.node.prev, h)
  }

  /** The primary block of n, whose delegates must include the minter, can be looked up. */
  ghost predicate CommissionKnown(n: Index, env: Lookups) {
    if n.kind.Genesis? || n.kind.Primary? then (n.hash, n.mint) in env.ratios
    else n.ref in env.blocks && env.blocks[n.ref].mint == n.mint && (env.blocks[n.ref].hash, n.mint) in env.ratios
  }

  ghost function CommissionOf(n: Index, env: Lookups): nat
    requires CommissionKnown(n, env)
  {
    if n.kind.Genesis? || n.kind.Primary? then env.ratios[(n.hash, n.mint)]
    else env.ratios[(env.blocks[n.ref].hash, n.mint)]
  }

  /** n explains whom a height pays and at which commission. */
  ghost predicate Explains(n: Index, env: Lookups, h: nat, b: CalcBlock) {
    n.height == h && Earns(n) && n.mint == b.mint && CommissionKnown(n, env) && CommissionOf(n, env) == b.ratio
  }

  /** The delegate and commission of a height are those of the highest block of that height. */
  lemma {:induction false} CollectExplained(l: Link, begin: int, env: Lookups, acc: Collected, h: nat)
      returns (n: Index)
    requires Collect(l, begin, env, acc).Some? && h in Collect(l, begin, env, acc).value.due && h !in acc.due
    ensures n in Branch(l) && Explains(n, env, h, Collect(l, begin, env, acc).value.due[h])
    ensures FirstMet(l, h) == Some(n)
  {
    var acc' := CollectOne(l.node, env, acc).value;
    if h in acc'.due {
      n := l.node;
      CollectKeeps(l.node.prev, begin, env, acc', h);
    } else {
      n := CollectExplained(l.node.prev, begin, env, acc', h);
    }
  }

  lemma {:induction false} NothingHigher(l: Link, h: nat)
    requires HeightsOk(l) && (l.To? ==> l.node.height < h)
    ensures EarnedAt(l, h) == 0 && FirstMet(l, h) == None
  {
    if !ForkEnd(l) {
      NothingHigher(l.node.prev, h);
    }
  }

  lemma {:induction false} NothingMined(l: Link, begin: int)
    requires HeightsOk(l) && (l.To? ==> l.node.height < begin)
    ensures MinedFrom(l, begin) == 0
  {
    if !ForkEnd(l) {
      NothingMined(l.node.prev, begin);
    }
  }

  /** The walk meets all blocks of the period and no others. */
  lemma {:induction false} RewardsAtIs(l: Link, begin: int, h: nat)
    requires HeightsOk(l)
    ensures RewardsAt(l, begin, h) == if h >= begin then EarnedAt(l, h) else 0
  {
    if !Stops(l, begin) {
      RewardsAtIs(l.node.prev, begin, h);
    } else if l.To? && l.node.height < begin <= h {
      NothingHigher(l, h);
    }
  }

  /** Every rewarded height from `begin` on, apart from those done, has a commission that is known. */
  ghost predicate CommissionsKnown(l: Link, begin: int, done: map<nat, CalcBlock>, env: Lookups) {
    forall h: nat :: h >= begin && h !in done && FirstMet(l, h).Some? ==> CommissionKnown(FirstMet(l, h).value, env)
  }

  lemma KnownStep(l: Link, begin: int, env: Lookups, acc: Collected)
    requires !Stops(l, begin) && CollectOne(l.node, env, acc).Some?
    ensures CommissionsKnown(l, begin, acc.due, env)
            <==> CommissionsKnown(l.node.prev, begin, CollectOne(l.node, env, acc).value.due, env)
  {
    var n, due, due' := l.node, acc.due, CollectOne(l.node, env, acc).value.due;
    assert due'.Keys == due.Keys + if Earns(n) then {n.height} else {};
    forall h: nat | h !in due' ensures FirstMet(l, h) == FirstMet(n.prev, h) {
    }
    if CommissionsKnown(n.prev, begin, due', env) {
      forall h: nat | h >= begin && h !in due && FirstMet(l, h).Some?
        ensures CommissionKnown(FirstMet(l, h).value, env)
      {
        if h !in due' {
          assert FirstMet(n.prev, h) == FirstMet(l, h);
        }
      }
    }
  }

  /** Collecting succeeds exactly when the commission of every height's highest block is known. */
  lemma {:induction false} CollectSomeIff(l: Link, begin: int, env: Lookups, acc: Collected)
    requires HeightsOk(l)
    ensures Collect(l, begin, env, acc).Some? <==> CommissionsKnown(l, begin, acc.due, env)
  {
    if !Stops(l, begin) {
      var n := l.node;
      if CollectOne(n, env, acc).Some? {
        CollectSomeIff(n.prev, begin, env, CollectOne(n, env, acc).value);
        KnownStep(l, begin, env, acc);
      } else {
        assert FirstMet(l, n.height) == Some(n);
      }
    } else if l.To? && l.node.height < begin {
      forall h: nat | h >= begin ensures FirstMet(l, h) == None {
        NothingHigher(l, h);
      }
    }
  }

  /** The rewards of mined blocks go to the surplus address, and to no other. */
  lemma {:induction false} CollectSurplus(l: Link, begin: int, env: Lookups, acc: Collected, d: Dest)
    requires Collect(l, begin, env, acc).Some? && HeightsOk(l) && Sum(acc.rewards) + MinedFrom(l, begin) < WORD
    ensures AmountAt(Collect(l, begin, env, acc).value.rewards, d)
            == AmountAt(acc.rewards, d) + if d == env.addr.surplus then MinedFrom(l, begin) else 0
  {
    if !Stops(l, begin) {
      var n := l.node;
      if Work(n) && n.reward > 0 {
        CreditAt(acc.rewards, env.addr.surplus, env.addr.surplus, n.reward, d);
        CreditSum(acc.rewards, env.addr.surplus, env.addr.surplus, n.reward);
      }
      CollectSurplus(n.prev, begin, env, CollectOne(n, env, acc).value, d);
    } else if l.To? && l.node.height < begin {
      NothingMined(l, begin);
    }
  }

  lemma {:induction false} CollectKeeps(l: Link, begin: int, env: Lookups, acc: Collected, h: nat)
    requires Collect(l, begin, env, acc).Some? && h in acc.due
    ensures var due := Collect(l, begin, env, acc).value.due;
            h in due && due[h].mint == acc.due[h].mint && due[h].ratio == acc.due[h].ratio
  {
    if !Stops(l, begin) {
      CollectKeeps(l.node.prev, begin, env, CollectOne(l.node, env, acc).value, h);
    }
  }

  /** Heights do not grow towards the root. */
  ghost predicate HeightsOk(l: Link) {
    l.To? && l.node.prev.To? ==> l.node.prev.node.height <= l.node.height && HeightsOk(l.node.prev)
  }

  ghost predicate RatiosOk(env: Lookups) {
    forall k :: k in env.ratios ==> env.ratios[k] <= PER
  }

  ghost predicate DueWithin(due: map<nat, CalcBlock>, begin: int, top: int) {
    forall h :: h in due ==> begin <= h <= top && due[h].ratio <= PER
  }

  /** Only heights of the period are collected, with commissions that are proper ratios. */
  lemma {:induction false} CollectWithin(l: Link, begin: int, env: Lookups, acc: Collected, top: int)
    requires Collect(l, begin, env, acc).Some? && HeightsOk(l) && RatiosOk(env)
    requires DueWithin(acc.due, begin, top) && (l.To? ==> l.node.height <= top)
    ensures DueWithin(Collect(l, begin, env, acc).value.due, begin, top)
  {
    if !Stops(l, begin) {
      CollectWithin(l.node.prev, begin, env, CollectOne(l.node, env, acc).value, top);
    }
  }

  // ---------------------------------------------------------------- handing out the period

  /** The rewards after the first n heights of the day. */
  ghost function WalkedOut(r: Rewards, due: map<nat, CalcBlock>, day: DayVotes, begin: nat, n: nat,
      addr: Addresses): Rewards {
    if n == 0 then r
    else DistributeAt(WalkedOut(r, due, day, begin, n - 1, addr), due, begin + n, VotesAt(day, begin, n - 1), addr)
  }

  ghost function PaidOut(due: map<nat, CalcBlock>, day: DayVotes, begin: nat, n: nat): nat {
    if n == 0 then 0
    else PaidOut(due, day, begin, n - 1) + if begin + n in due
        then Paid(due[begin + n], VotesAt(day, begin, n - 1)) else 0
  }

  ghost function DueUpTo(due: map<nat, CalcBlock>, begin: nat, n: nat): nat {
    if n == 0 then 0 else DueUpTo(due, begin, n - 1) + if begin + n in due then due[begin + n].amount else 0
  }

  /** A delegate's votes, and their product with the period's rewards, fit in 256 bits. */
  ghost predicate VotesFit(total: nat, dv: DelegateVotes) {
    VoteTotal(dv.votes) < WORD && total * VoteTotal(dv.votes) < WORD
  }

  ghost predicate AllVotesFit(total: nat, full: FullVotes) {
    forall d :: d in full ==> VotesFit(total, full[d])
  }

  ghost predicate Fits(total: nat, day: DayVotes, begin: nat, n: nat) {
    total * PER < WORD && forall m: nat :: m < n ==> AllVotesFit(total, VotesAt(day, begin, m))
  }

  lemma TotalIsVotes(dv: DelegateVotes)
    requires dv.total == VoteTotal(dv.votes)
    ensures VotesOf(Ascending(dv.votes.Keys), dv.votes) == dv.total
  {
    VotesOfIsSum(Ascending(dv.votes.Keys), dv.votes);
    SumAlongIsTotal(VoteAmounts(dv.votes), Ascending(dv.votes.Keys));
  }

  lemma SoundVotes(b: CalcBlock, full: FullVotes, total: nat)
    requires b.ratio <= PER && b.amount <= total && total * PER < WORD
    requires TotalsMatch(full) && AllVotesFit(total, full)
    ensures Sound(b, full)
  {
    MulMonotone(b.amount, total, PER);
    if b.mint in full {
      var dv := full[b.mint];
      assert VotesFit(total, dv);
      SubExact(VoteTotal(dv.votes), VoteTotal(dv.votes));
      TotalIsVotes(dv);
      MulMonotone(b.amount, total, dv.total);
    }
  }

  /** Conservation over any number of heights. */
  lemma {:induction false} WalkConserves(r: Rewards, due: map<nat, CalcBlock>, day: DayVotes, begin: nat, n: nat,
      addr: Addresses, total: nat)
    requires Fits(total, day, begin, n) && Sum(r) + DueUpTo(due, begin, n) <= total < WORD
    requires forall h :: h in due ==> due[h].ratio <= PER
    ensures Sum(WalkedOut(r, due, day, begin, n, addr)) == Sum(r) + PaidOut(due, day, begin, n)
    ensures PaidOut(due, day, begin, n) <= DueUpTo(due, begin, n)
  {
    if n > 0 {
      WalkConserves(r, due, day, begin, n - 1, addr, total);
      if begin + n in due {
        VotesAtMatch(day, begin, n - 1);
        SoundVotes(due[begin + n], VotesAt(day, begin, n - 1), total);
        DistributeConserves(WalkedOut(r, due, day, begin, n - 1, addr), due[begin + n], VotesAt(day, begin, n - 1),
            addr);
      }
    }
  }

  lemma {:induction false} DueUpToAgrees(due: map<nat, CalcBlock>, due': map<nat, CalcBlock>, begin: nat, n: nat)
    requires forall h :: h <= begin + n ==> (h in due <==> h in due') && (h in due ==> due[h] == due'[h])
    ensures DueUpTo(due, begin, n) == DueUpTo(due', begin, n)
  {
    if n > 0 {
      DueUpToAgrees(due, due', begin, n - 1);
    }
  }

  /** The heights of the day carry all that was collected. */
  lemma {:induction false} DueUpToIsTotal(due: map<nat, CalcBlock>, begin: nat, n: nat)
    requires DueWithin(due, begin + 1, begin + n)
    ensures DueUpTo(due, begin, n) == Total(CalcAmounts(due))
  {
    if n == 0 {
      assert CalcAmounts(due) == map[];
    } else {
      var h := begin + n;
      DueUpToIsTotal(due - {h}, begin, n - 1);
      DueUpToAgrees(due, due - {h}, begin, n - 1);
      assert CalcAmounts(due - {h}) == CalcAmounts(due) - {h};
      if h in due {
        TotalRemove(CalcAmounts(due), h);
      } else {
        assert due - {h} == due;
      }
    }
  }

  /** Every height's reward finds somebody to take the voters' rest. */
  ghost predicate AllComplete(due: map<nat, CalcBlock>, day: DayVotes, begin: nat, n: nat) {
    forall m: nat :: m < n && begin + m + 1 in due ==> Complete(due[begin + m + 1], VotesAt(day, begin, m))
  }

  lemma PaidInFull(b: CalcBlock, full: FullVotes)
    requires b.ratio <= PER && b.amount * PER < WORD
    ensures Paid(b, full) == b.amount <==> Complete(b, full)
  {
    SplitSum(b);
  }

  lemma {:induction false} PaidOutInFull(due: map<nat, CalcBlock>, day: DayVotes, begin: nat, n: nat, total: nat)
    requires forall h :: h in due ==> due[h].ratio <= PER
    requires total * PER < WORD && DueUpTo(due, begin, n) <= total
    ensures PaidOut(due, day, begin, n) <= DueUpTo(due, begin, n)
    ensures PaidOut(due, day, begin, n) == DueUpTo(due, begin, n) <==> AllComplete(due, day, begin, n)
  {
    if n > 0 {
      PaidOutInFull(due, day, begin, n - 1, total);
      AllCompleteStep(due, day, begin, n);
      if begin + n in due {
        MulMonotone(due[begin + n].amount, total, PER);
        SplitSum(due[begin + n]);
        PaidInFull(due[begin + n], VotesAt(day, begin, n - 1));
      }
    }
  }

  lemma AllCompleteStep(due: map<nat, CalcBlock>, day: DayVotes, begin: nat, n: nat)
    requires n > 0
    ensures AllComplete(due, day, begin, n)
            <==> AllComplete(due, day, begin, n - 1) &&
                 (begin + n in due ==> Complete(due[begin + n], VotesAt(day, begin, n - 1)))
  {
    if AllComplete(due, day, begin, n) && begin + n in due {
      var v := VotesAt(day, begin, n - 1);
    }
  }

  /** The other side: a reward of a delegate without votes leaves its voters' 18 percent with nobody. */
  lemma NoVotersLoses(mint: Dest)
    ensures Paid(CalcBlock(mint, 0, 10000), map[]) == 8200
  {
    RestExact(10000);
    RatioExact(10000, PROJECT_RATIO);
    RatioExact(10000, FOUNDATION_RATIO);
  }

  // ---------------------------------------------------------------- the whole period

  /** The last primary block whose votes count, with its height. */
  function LastVoteBlock(tail: Index, store: VoteStore): Option<(Hash, nat)>
    requires tail.IsPrimary() ==> tail.prev.To?
  {
    if tail.IsPrimary() then Some((tail.prev.node.hash, tail.prev.node.height))
    else if tail.height > 0 && tail.height - 1 in store.primary
        then Some((store.primary[tail.height - 1], tail.height - 1))
    else None
  }

  /** The votes of the period below a boundary block, if they can be looked up. */
  function DayOf(tail: Index, store: VoteStore, D: Length): Option<DayVotes>
    requires tail.IsPrimary() ==> tail.prev.To?
  {
    if tail.height < D || tail.height - D !in store.primary then None
    else
      match LastVoteBlock(tail, store)
      case None => None
      case Some(last) =>
        var key := (store.primary[tail.height - D], last.0);
        if last.1 == tail.height - 1 && key in store.days then Some(store.days[key]) else None
  }

  ghost function CollectedOf(tail: Index, env: Lookups, D: Length): Option<Collected> {
    Collect(To(tail), tail.height - D + 1, env, Collected(map[], map[]))
  }

  /** mapVoteReward of the boundary block `tail`. */
  ghost function PeriodRewards(tail: Index, env: Lookups, store: VoteStore, D: Length): Option<Rewards>
    requires tail.IsPrimary() ==> tail.prev.To?
  {
    if tail.height % D != 0 || CollectedOf(tail, env, D).None? || DayOf(tail, store, D).None? then None
    else
      var c := CollectedOf(tail, env, D).value;
      Some(WalkedOut(c.rewards, c.due, DayOf(tail, store, D).value, tail.height - D, D, env.addr))
  }

  ghost function PeriodTotal(tail: Index, D: Length): nat {
    Collectable(To(tail), tail.height - D + 1)
  }

  lemma CollectedTotal(tail: Index, env: Lookups, D: Length)
    requires CollectedOf(tail, env, D).Some? && PeriodTotal(tail, D) < WORD
    ensures Held(CollectedOf(tail, env, D).value) == PeriodTotal(tail, D)
  {
    assert Amounts(map[]) == map[] && CalcAmounts(map[]) == map[];
    CollectHolds(To(tail), tail.height - D + 1, env, Collected(map[], map[]));
  }

  /** Reward conservation over a period: what is handed out is at most the rewards of its blocks, and
      all of them exactly when every rewarded height has voters for what its commission leaves. */
  lemma PeriodConserves(tail: Index, env: Lookups, store: VoteStore, D: Length)
    requires (tail.IsPrimary() ==> tail.prev.To?) && PeriodRewards(tail, env, store, D).Some?
    requires HeightsOk(To(tail)) && RatiosOk(env)
    requires Fits(PeriodTotal(tail, D), DayOf(tail, store, D).value, tail.height - D, D)
    ensures var c := CollectedOf(tail, env, D).value;
            var day := DayOf(tail, store, D).value;
            var paid := Sum(PeriodRewards(tail, env, store, D).value);
            && paid == Sum(c.rewards) + PaidOut(c.due, day, tail.height - D, D) <= PeriodTotal(tail, D)
            && (paid == PeriodTotal(tail, D) <==> AllComplete(c.due, day, tail.height - D, D))
  {
    var c, day, begin, total := CollectedOf(tail, env, D).value, DayOf(tail, store, D).value, tail.height - D,
        PeriodTotal(tail, D);
    CollectedTotal(tail, env, D);
    CollectWithin(To(tail), begin + 1, env, Collected(map[], map[]), tail.height);
    DueUpToIsTotal(c.due, begin, D);
    WalkConserves(c.rewards, c.due, day, begin, D, env.addr, total);
    PaidOutInFull(c.due, day, begin, D, total);
  }

  /** `day` holds the votes from the primary block D heights below the boundary up to the last primary
      block below it: the boundary's own parent or, for a sub-fork, the primary chain's block. */
  ghost predicate DayBelow(tail: Index, store: VoteStore, D: Length, day: DayVotes)
    requires tail.IsPrimary() ==> tail.prev.To?
  {
    && tail.height >= D && tail.height - D in store.primary
    && if tail.IsPrimary() then
         && tail.prev.node.height == tail.height - 1
         && (store.primary[tail.height - D], tail.prev.node.hash) in store.days
         && day == store.days[(store.primary[tail.height - D], tail.prev.node.hash)]
       else
         && tail.height - 1 in store.primary
         && (store.primary[tail.height - D], store.primary[tail.height - 1]) in store.days
         && day == store.days[(store.primary[tail.height - D], store.primary[tail.height - 1])]
  }

  lemma DayOfIff(tail: Index, store: VoteStore, D: Length, day: DayVotes)
    requires tail.IsPrimary() ==> tail.prev.To?
    ensures DayOf(tail, store, D) == Some(day) <==> DayBelow(tail, store, D, day)
  {
  }

  /** The rewards of a period can be computed exactly when its boundary is a multiple of the period's
      length, the commissions of its heights are known, and so are its votes. */
  lemma PeriodRewardsIff(tail: Index, env: Lookups, store: VoteStore, D: Length)
    requires (tail.IsPrimary() ==> tail.prev.To?) && HeightsOk(To(tail))
    ensures PeriodRewards(tail, env, store, D).Some? <==>
              && tail.height % D == 0 && CommissionsKnown(To(tail), tail.height - D + 1, map[], env)
              && exists day :: DayBelow(tail, store, D, day)
  {
    CollectSomeIff(To(tail), tail.height - D + 1, env, Collected(map[], map[]));
    if DayOf(tail, store, D).Some? {
      DayOfIff(tail, store, D, DayOf(tail, store, D).value);
      assert DayBelow(tail, store, D, DayOf(tail, store, D).value);
    } else if day :| DayBelow(tail, store, D, day) {
      DayOfIff(tail, store, D, day);
    }
  }

  /** What a period's heights are due: each height above the last boundary what its blocks earn, with the
      delegate and commission of its highest block; no other height anything; and the surplus address
      starts with the mined rewards. */
  lemma PeriodDue(tail: Index, env: Lookups, D: Length, h: nat, d: Dest)
    requires CollectedOf(tail, env, D).Some? && HeightsOk(To(tail))
    requires EarnedAt(To(tail), h) < WORD && MinedFrom(To(tail), tail.height - D + 1) < WORD
    ensures var c := CollectedOf(tail, env, D).value;
            && DueAt(c.due, h) == (if h > tail.height - D then EarnedAt(To(tail), h) else 0)
            && (h in c.due ==> FirstMet(To(tail), h).Some? && Explains(FirstMet(To(tail), h).value, env, h, c.due[h]))
            && AmountAt(c.rewards, d)
               == if d == env.addr.surplus then MinedFrom(To(tail), tail.height - D + 1) else 0
  {
    var l, begin, none := To(tail), tail.height - D + 1, Collected(map[], map[]);
    RewardsAtIs(l, begin, h);
    CollectAt(l, begin, env, none, h);
    assert Amounts(map[]) == map[];
    CollectSurplus(l, begin, env, none, d);
    if h in CollectedOf(tail, env, D).value.due {
      var n := CollectExplained(l, begin, env, none, h);
    }
  }

  // ---------------------------------------------------------------- the loops

  /** Walks the branch down from the boundary block. */
  method CollectRewards(tail: Index, env: Lookups, D: Length) returns (r: Option<Collected>)
    ensures r == CollectedOf(tail, env, D)
  {
    var begin := tail.height - D + 1;
    var l, acc := To(tail), Collected(map[], map[]);
    while !Stops(l, begin)
      invariant CollectedOf(tail, env, D) == Collect(l, begin, env, acc)
      decreases l
    {
      var next := CollectOne(l.node, env, acc);
      if next.None? {
        return None;
      }
      l, acc := l.node.prev, next.value;
    }
    return Some(acc);
  }

  lemma AddMod(t: nat, a: nat, rest: nat)
    ensures (Add(t, a) + rest) % WORD == (t + a + rest) % WORD
  {
    ModShift((t + a) % WORD + rest, (t + a) / WORD);
  }

  method SumVotes(votes: map<Dest, Vote>) returns (total: nat)
    ensures total == VoteTotal(votes) % WORD
  {
    total := 0;
    var rest := votes;
    while rest != map[]
      invariant total < WORD
      invariant (total + VoteTotal(rest)) % WORD == VoteTotal(votes) % WORD
      decreases |rest|
    {
      var k := Least(rest.Keys);
      VoteTotalRemove(rest, k);
      AddMod(total, rest[k].amount, VoteTotal(rest - {k}));
      total := Add(total, rest[k].amount);
      rest := rest - {k};
    }
    assert VoteAmounts(rest) == map[];
  }

  method FirstFull(first: map<Dest, map<Dest, Vote>>) returns (full: FullVotes)
    ensures full == FirstVotes(first)
  {
    full := map[];
    var todo := first.Keys;
    while todo != {}
      invariant todo <= first.Keys
      invariant full == FirstVotes(first - todo)
      decreases |todo|
    {
      var d := Least(todo);
      var total := SumVotes(first[d]);
      full := full[d := DelegateVotes(first[d], total)];
      todo := todo - {d};
    }
    assert first - {} == first;
  }

  method ApplyChanges(start: FullVotes, voters: seq<Dest>, cs: map<Dest, Change>) returns (full: FullVotes)
    requires forall k :: k in voters ==> k in cs
    ensures full == AppliedAll(start, voters, cs)
  {
    full := start;
    var i := 0;
    while i < |voters|
      invariant 0 <= i <= |voters|
      invariant full == AppliedAll(start, voters[..i], cs)
    {
      assert voters[..i+1][..i] == voters[..i];
      full := Applied(full, voters[i], cs[voters[i]]);
      i := i + 1;
    }
    assert voters[..i] == voters;
  }

  method ChangeVotes(start: FullVotes, day: DayVotes, h: nat) returns (full: FullVotes)
    ensures full == NextVotes(start, day, h)
  {
    full := start;
    if h in day.changes {
      full := ApplyChanges(full, Ascending(day.changes[h].Keys), day.changes[h]);
    }
  }

  /** CVoteDB::WalkThroughDayVote: every height of the day once, in order, with its votes. */
  method WalkThroughDayVote(day: DayVotes, begin: nat, tail: nat, D: Length, walker: DayVoteWalker) returns (ok: bool)
    modifies walker
    ensures ok <==> begin + D - 1 == tail
    ensures ok ==> walker.rewards == WalkedOut(old(walker.rewards), walker.calcBlocks, day, begin, D, walker.addr)
  {
    if begin + D - 1 != tail {
      return false;
    }
    var full := FirstFull(day.first);
    walker.Walk(begin, full);
    var n := 1;
    while n < D
      invariant 1 <= n <= D
      invariant full == VotesAt(day, begin, n - 1)
      invariant walker.rewards == WalkedOut(old(walker.rewards), walker.calcBlocks, day, begin, n, walker.addr)
    {
      full := ChangeVotes(full, day, begin + n);
      walker.Walk(begin + n, full);
      n := n + 1;
    }
    return true;
  }

  /** CBlockChain::CalcDistributeVoteReward. */
  method CalcDistributeVoteReward(tail: Index, env: Lookups, store: VoteStore, D: Length) returns (r: Option<Rewards>)
    requires tail.IsPrimary() ==> tail.prev.To?
    ensures r == PeriodRewards(tail, env, store, D)
  {
    if tail.height % D != 0 {
      return None;
    }
    var c := CollectRewards(tail, env, D);
    var day := DayOf(tail, store, D);
    if c.None? || day.None? {
      return None;
    }
    var walker := new DayVoteWalker(env.addr, c.value.due, c.value.rewards);
    var ok := WalkThroughDayVote(day.value, tail.height - D, tail.height - 1, D, walker);
    return Some(walker.rewards);
  }
}
