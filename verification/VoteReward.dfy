/** The day-vote walker of CBlockChain::CalcDistributeVoteReward (src/blockchain/blockchain.cpp): how
    one height's block reward is split between the project, the foundation, the producing delegate
    and its voters. Amounts are 256-bit words. */
module VoteReward {
  import opened Common

  const PER: nat := 10000          // MINT_REWARD_PER, PLEDGE_REWARD_PER and REWARD_DISTRIBUTION_PER
  const PROJECT_RATIO: nat := 4200
  const FOUNDATION_RATIO: nat := 4000

  /** The three function addresses of the network. */
  datatype Addresses = Addresses(surplus: Dest, project: Dest, foundation: Dest)

  /** CVoteContext: `toVoter` is REWARD_MODE_VOTE, `rate` the share paid out, in ten-thousandths. */
  datatype Vote = Vote(owner: Dest, toVoter: bool, amount: nat, rate: nat)

  /** A delegate's votes by voter, and their recorded total. */
  datatype DelegateVotes = DelegateVotes(votes: map<Dest, Vote>, total: nat)

  /** What one height has to distribute, and the delegate's commission in ten-thousandths. */
  datatype CalcBlock = CalcBlock(mint: Dest, ratio: nat, amount: nat)

  /** mapVoteReward: by vote or delegate address, the address to pay and the amount. */
  datatype Entry = Entry(recipient: Dest, amount: nat)
  type Rewards = map<Dest, Entry>

  function AmountAt(r: Rewards, k: Dest): nat {
    if k in r then r[k].amount else 0
  }

  function Credit(r: Rewards, k: Dest, recipient: Dest, amount: nat): Rewards {
    r[k := Entry(recipient, Add(AmountAt(r, k), amount))]
  }

  function CreditIfPositive(r: Rewards, k: Dest, amount: nat): Rewards {
    if amount > 0 then Credit(r, k, k, amount) else r
  }

  ghost function Amounts(r: Rewards): map<Dest, nat> {
    map k | k in r :: r[k].amount
  }

  /** The total of all entries. */
  ghost function Sum(r: Rewards): nat {
    Total(Amounts(r))
  }

  lemma CreditSum(r: Rewards, k: Dest, recipient: Dest, amount: nat)
    requires Sum(r) + amount < WORD
    ensures Sum(Credit(r, k, recipient, amount)) == Sum(r) + amount
  {
    assert Amounts(Credit(r, k, recipient, amount)) == Amounts(r)[k := Add(AmountAt(r, k), amount)];
    TotalUpdate(Amounts(r), k, Add(AmountAt(r, k), amount));
    if k in r {
      TotalAtLeast(Amounts(r), k);
    }
  }

  // ---------------------------------------------------------------- the voters' share

  /** The running state of the loop over the voters. */
  datatype Acc = Acc(rewards: Rewards, distributed: nat, destroyed: nat)

  function Share(reward: nat, amount: nat, total: nat): nat
    requires total > 0
  {
    Mul(reward, amount) / total
  }

  function UserPart(share: nat, rate: nat): nat {
    if rate < PER then Mul(share, rate) / PER else share
  }

  function PayVoter(acc: Acc, k: Dest, v: Vote, reward: nat, total: nat): Acc
    requires total > 0
  {
    if v.amount == 0 then acc
    else
      var share := Share(reward, v.amount, total);
      var user := UserPart(share, v.rate);
      Acc(Credit(acc.rewards, k, Recipient(k, v), user),
          Add(acc.distributed, share),
          if v.rate < PER then Add(acc.destroyed, Sub(share, user)) else acc.destroyed)
  }

  function PayVoters(r: Rewards, keys: seq<Dest>, votes: map<Dest, Vote>, reward: nat, total: nat): Acc
    requires total > 0 && forall k :: k in keys ==> k in votes
  {
    if keys == [] then Acc(r, 0, 0)
    else
      var k := keys[|keys|-1];
      PayVoter(PayVoters(r, keys[..|keys|-1], votes, reward, total), k, votes[k], reward, total)
  }

  ghost function VotesOf(keys: seq<Dest>, votes: map<Dest, Vote>): nat
    requires forall k :: k in keys ==> k in votes
  {
    if keys == [] then 0 else VotesOf(keys[..|keys|-1], votes) + votes[keys[|keys|-1]].amount
  }

  ghost function Positive(keys: seq<Dest>, votes: map<Dest, Vote>): nat
    requires forall k :: k in keys ==> k in votes
  {
    if keys == [] then 0
    else Positive(keys[..|keys|-1], votes) + if votes[keys[|keys|-1]].amount > 0 then 1 else 0
  }

  lemma Floor(x: nat, t: nat)
    requires t > 0
    ensures t * (x / t) <= x < t * (x / t) + t
  {
  }

  lemma DivAtMost(x: nat, r: nat, t: nat)
    requires t > 0 && x <= r * t
    ensures x / t <= r
  {
    Floor(x, t);
    if x / t > r {
      MulMonotone(r + 1, x / t, t);
    }
  }

  lemma MulExact(a: nat, b: nat)
    requires a * b < WORD
    ensures Mul(a, b) == a * b
  {
  }

  /** A voter keeps its rate's exact floor of its share, and all of it when the rate is full. */
  lemma UserPartFloor(share: nat, rate: nat)
    requires share * 10000 < WORD
    ensures rate < 10000 ==> UserPart(share, rate) == share * rate / 10000
    ensures rate < 10000 ==> 10000 * UserPart(share, rate) <= share * rate < 10000 * UserPart(share, rate) + 10000
    ensures rate >= 10000 ==> UserPart(share, rate) == share
  {
    if rate < PER {
      MulMonotone(rate, PER, share);
      MulExact(share, rate);
      Floor(share * rate, PER);
    }
  }

  lemma UserPartAtMost(share: nat, rate: nat)
    requires share * PER < WORD
    ensures UserPart(share, rate) <= share
  {
    if rate < PER {
      MulMonotone(rate, PER, share);
      MulExact(share, rate);
      DivAtMost(share * rate, share, PER);
    }
  }

  /** One voter's share is an exact floor and at most the reward. */
  lemma ShareBounds(reward: nat, amount: nat, total: nat)
    requires total > 0 && amount <= total && reward * total < WORD
    ensures total * Share(reward, amount, total) <= reward * amount < total * Share(reward, amount, total) + total
    ensures Share(reward, amount, total) <= reward
  {
    ShareIs(reward, amount, total);
    Floor(reward * amount, total);
    MulMonotone(amount, total, reward);
    DivAtMost(reward * amount, reward, total);
  }

  lemma ShareIs(reward: nat, amount: nat, total: nat)
    requires total > 0 && amount <= total && reward * total < WORD
    ensures Share(reward, amount, total) == reward * amount / total
  {
    MulMonotone(amount, total, reward);
    MulExact(reward, amount);
  }

  lemma WordExact(a: nat, b: nat)
    requires a + b < WORD
    ensures Add(a, b) == a + b
    ensures a >= b ==> Sub(a, b) == a - b
  {
  }

  lemma PayShare(acc: Acc, k: Dest, recipient: Dest, share: nat, user: nat, base: nat)
    requires Sum(acc.rewards) + acc.destroyed == base + acc.distributed
    requires user <= share && base + acc.distributed + share < WORD
    ensures Sum(Credit(acc.rewards, k, recipient, user)) + Add(acc.destroyed, Sub(share, user)) == base +
            (acc.distributed + share)
    ensures Add(acc.distributed, share) == acc.distributed + share
    ensures user == share ==> Add(acc.destroyed, Sub(share, user)) == acc.destroyed
  {
    CreditSum(acc.rewards, k, recipient, user);
    WordExact(acc.destroyed, share - user);
    WordExact(acc.distributed, share);
  }

  /** Paying one voter moves exactly its share, into the entry and into what is destroyed. */
  lemma PayVoterExact(acc: Acc, k: Dest, v: Vote, reward: nat, total: nat, base: nat)
    requires total > 0 && v.amount <= total && reward * total < WORD && reward * PER < WORD
    requires Sum(acc.rewards) + acc.destroyed == base + acc.distributed
    requires v.amount > 0 ==> base + acc.distributed + Share(reward, v.amount, total) < WORD
    ensures PayVoter(acc, k, v, reward, total).distributed == acc.distributed +
            (if v.amount > 0 then Share(reward, v.amount, total) else 0)
    ensures Sum(PayVoter(acc, k, v, reward, total).rewards) + PayVoter(acc, k, v, reward, total).destroyed
            == base + PayVoter(acc, k, v, reward, total).distributed
  {
    if v.amount > 0 {
      var share := Share(reward, v.amount, total);
      assert share * PER < WORD by {
        ShareBounds(reward, v.amount, total);
        MulMonotone(share, reward, PER);
      }
      UserPartAtMost(share, v.rate);
      PayShare(acc, k, Recipient(k, v), share, UserPart(share, v.rate), base);
    }
  }

  lemma AddProducts(c: nat, a: nat, b: nat)
    ensures c * (a + b) == c * a + c * b
  {
  }

  /** The distributed part so far, against the exact proportional amount. */
  ghost predicate Proportional(reward: nat, votes: nat, total: nat, distributed: nat, positive: nat) {
    && total * distributed <= reward * votes
    && (if positive == 0 then votes == 0 && distributed == 0
        else reward * votes < total * distributed + total * positive)
  }

  lemma ProportionalStep(reward: nat, votes: nat, total: nat, distributed: nat, positive: nat, amount: nat, share: nat)
    requires Proportional(reward, votes, total, distributed, positive)
    requires total * share <= reward * amount < total * share + total
    ensures Proportional(reward, votes + amount, total, distributed + share, positive + 1)
  {
    AddProducts(reward, votes, amount);
    AddProducts(total, distributed, share);
    AddProducts(total, positive, 1);
  }

  lemma ProportionalAtMost(reward: nat, votes: nat, total: nat, distributed: nat, positive: nat)
    requires Proportional(reward, votes, total, distributed, positive) && total > 0 && votes <= total
    ensures distributed <= reward
    ensures votes == total && positive > 0 ==> reward < distributed + positive
  {
    MulMonotone(votes, total, reward);
    if distributed > reward {
      MulMonotone(reward + 1, distributed, total);
    }
    if votes == total && positive > 0 && reward >= distributed + positive {
      MulMonotone(distributed + positive, reward, total);
      AddProducts(total, distributed, positive);
    }
  }

  /** Paying all voters conserves: entries and destroyed part grow by what is distributed, which is
      the sum of exact floors. */
  lemma {:induction false} PayVotersExact(r: Rewards, keys: seq<Dest>, votes: map<Dest, Vote>, reward: nat, total: nat)
    requires total > 0 && forall k :: k in keys ==> k in votes
    requires VotesOf(keys, votes) <= total && reward * total < WORD && reward * PER < WORD && Sum(r) + reward < WORD
    ensures var acc := PayVoters(r, keys, votes, reward, total);
            && Proportional(reward, VotesOf(keys, votes), total, acc.distributed, Positive(keys, votes))
            && acc.distributed <= reward
            && Sum(acc.rewards) + acc.destroyed == Sum(r) + acc.distributed
  {
    if keys != [] {
      var init, k := keys[..|keys|-1], keys[|keys|-1];
      PayVotersExact(r, init, votes, reward, total);
      var acc := PayVoters(r, init, votes, reward, total);
      var v := votes[k];
      if v.amount > 0 {
        var share := Share(reward, v.amount, total);
        ShareBounds(reward, v.amount, total);
        ProportionalStep(reward, VotesOf(init, votes), total, acc.distributed, Positive(init, votes), v.amount, share);
        ProportionalAtMost(reward, VotesOf(keys, votes), total, acc.distributed + share, Positive(keys, votes));
      }
      PayVoterExact(acc, k, v, reward, total, Sum(r));
    }
  }

  // ---------------------------------------------------------------- the rounding residue

  function Recipient(k: Dest, v: Vote): Dest {
    if v.toVoter then k else v.owner
  }

  /** The first voter that has an entry, if any. */
  function FirstKnown(r: Rewards, keys: seq<Dest>): (o: Option<Dest>)
    ensures o.Some? ==> o.value in r
  {
    if keys == [] then None
    else if keys[0] in r then Some(keys[0])
    else FirstKnown(r, keys[1..])
  }

  /** The residue goes to the first voter with an entry; failing that, to the first entry of all; and
      if there is none, to the first voter. */
  function GiveResidue(r: Rewards, keys: seq<Dest>, votes: map<Dest, Vote>, residue: nat): Rewards
    requires keys != [] && keys[0] in votes
  {
    match FirstKnown(r, keys)
    case Some(k) => Credit(r, k, r[k].recipient, residue)
    case None =>
      if r == map[] then Credit(r, keys[0], Recipient(keys[0], votes[keys[0]]), residue)
      else
        var k := Least(r.Keys);
        Credit(r, k, r[k].recipient, residue)
  }

  lemma GiveResidueSum(r: Rewards, keys: seq<Dest>, votes: map<Dest, Vote>, residue: nat)
    requires keys != [] && keys[0] in votes && Sum(r) + residue < WORD
    ensures Sum(GiveResidue(r, keys, votes, residue)) == Sum(r) + residue
  {
    match FirstKnown(r, keys)
    case Some(k) => CreditSum(r, k, r[k].recipient, residue);
    case None =>
      if r == map[] {
        CreditSum(r, keys[0], Recipient(keys[0], votes[keys[0]]), residue);
      } else {
        CreditSum(r, Least(r.Keys), r[Least(r.Keys)].recipient, residue);
      }
  }

  /** The whole of `reward` handed to a delegate's voters. */
  function ToVoters(r: Rewards, dv: DelegateVotes, reward: nat, surplus: Dest): Rewards
    requires dv.total > 0
  {
    ToVotersIn(Ascending(dv.votes.Keys), r, dv, reward, surplus)
  }

  function ToVotersIn(keys: seq<Dest>, r: Rewards, dv: DelegateVotes, reward: nat, surplus: Dest): Rewards
    requires dv.total > 0 && forall k :: k in keys ==> k in dv.votes
  {
    var acc := PayVoters(r, keys, dv.votes, reward, dv.total);
    var r' := CreditIfPositive(acc.rewards, surplus, acc.destroyed);
    if keys != [] && reward > acc.distributed then GiveResidue(r', keys, dv.votes, Sub(reward, acc.distributed)) else r'
  }

  lemma CreditIfPositiveSum(r: Rewards, k: Dest, amount: nat)
    requires Sum(r) + amount < WORD
    ensures Sum(CreditIfPositive(r, k, amount)) == Sum(r) + amount
  {
    if amount > 0 {
      CreditSum(r, k, k, amount);
    }
  }

  /** Handing a reward to voters whose votes are within the recorded total conserves it exactly when
      there is a voter at all. */
  lemma ToVotersInSum(keys: seq<Dest>, r: Rewards, dv: DelegateVotes, reward: nat, surplus: Dest)
    requires dv.total > 0 && (forall k :: k in keys ==> k in dv.votes) && VotesOf(keys, dv.votes) <= dv.total
    requires reward * dv.total < WORD && reward * PER < WORD && Sum(r) + reward < WORD
    ensures Sum(ToVotersIn(keys, r, dv, reward, surplus)) == Sum(r) + (if keys == [] then 0 else reward)
  {
    var acc := PayVoters(r, keys, dv.votes, reward, dv.total);
    PayVotersExact(r, keys, dv.votes, reward, dv.total);
    CreditIfPositiveSum(acc.rewards, surplus, acc.destroyed);
    if keys != [] && reward > acc.distributed {
      WordExact(reward, acc.distributed);
      GiveResidueSum(CreditIfPositive(acc.rewards, surplus, acc.destroyed), keys, dv.votes, reward - acc.distributed);
    }
  }

  lemma ToVotersSum(r: Rewards, dv: DelegateVotes, reward: nat, surplus: Dest)
    requires dv.total > 0 && VotesOf(Ascending(dv.votes.Keys), dv.votes) <= dv.total
    requires reward * dv.total < WORD && reward * PER < WORD && Sum(r) + reward < WORD
    ensures Sum(ToVoters(r, dv, reward, surplus)) == Sum(r) + (if dv.votes == map[] then 0 else reward)
  {
    var keys := Ascending(dv.votes.Keys);
    assert |keys| == |dv.votes.Keys|;
    ToVotersInSum(keys, r, dv, reward, surplus);
  }

  // ---------------------------------------------------------------- one height

  function Ratio(reward: nat, ratio: nat): nat {
    Mul(reward, ratio) / PER
  }

  /** The parts of a height's reward: project, foundation, commission and the voters' rest. */
  datatype Parts = Parts(project: nat, foundation: nat, commission: nat, voters: nat)

  function Split(b: CalcBlock): Parts {
    var rest := Rest(b.amount);
    var c := if b.ratio != 0 then Ratio(rest, b.ratio) else 0;
    Parts(Ratio(b.amount, PROJECT_RATIO), Ratio(b.amount, FOUNDATION_RATIO), c, if b.ratio != 0
        then Sub(rest, c) else rest)
  }

  /** The project, foundation and commission parts paid. */
  function Fixed(r: Rewards, mint: Dest, parts: Parts, addr: Addresses): Rewards {
    var r1 := CreditIfPositive(r, addr.project, parts.project);
    var r2 := CreditIfPositive(r1, addr.foundation, parts.foundation);
    CreditIfPositive(r2, mint, parts.commission)
  }

  lemma FixedSum(r: Rewards, mint: Dest, p: Parts, addr: Addresses)
    requires Sum(r) + p.project + p.foundation + p.commission < WORD
    ensures Sum(Fixed(r, mint, p, addr)) == Sum(r) + p.project + p.foundation + p.commission
  {
    CreditIfPositiveSum(r, addr.project, p.project);
    var r1 := CreditIfPositive(r, addr.project, p.project);
    CreditIfPositiveSum(r1, addr.foundation, p.foundation);
    CreditIfPositiveSum(CreditIfPositive(r1, addr.foundation, p.foundation), mint, p.commission);
  }

  /** What Walk makes of mapVoteReward for the block of one height. */
  function Distribute(r: Rewards, b: CalcBlock, dv: map<Dest, DelegateVotes>, addr: Addresses): Rewards {
    if b.amount == 0 then r
    else
      var parts := Split(b);
      var r' := Fixed(r, b.mint, parts, addr);
      if parts.voters != 0 && b.mint in dv && dv[b.mint].total > 0
          then ToVoters(r', dv[b.mint], parts.voters, addr.surplus)
      else r'
  }

  function DistributeAt(r: Rewards, due: map<nat, CalcBlock>, h: nat, dv: map<Dest, DelegateVotes>,
      addr: Addresses): Rewards {
    if h in due then Distribute(r, due[h], dv, addr) else r
  }

  lemma RatioExact(reward: nat, ratio: nat)
    requires ratio <= PER && reward * PER < WORD
    ensures Ratio(reward, ratio) == reward * ratio / PER <= reward
  {
    MulMonotone(ratio, PER, reward);
    DivAtMost(reward * ratio, reward, PER);
  }

  /** What is left after the project and foundation parts. */
  function Rest(amount: nat): nat {
    Sub(amount, Add(Ratio(amount, PROJECT_RATIO), Ratio(amount, FOUNDATION_RATIO)))
  }

  lemma RestExact(amount: nat)
    requires amount * PER < WORD
    ensures Ratio(amount, PROJECT_RATIO) + Ratio(amount, FOUNDATION_RATIO) + Rest(amount) == amount
  {
    RatioExact(amount, PROJECT_RATIO);
    RatioExact(amount, FOUNDATION_RATIO);
    var p, f := amount * PROJECT_RATIO / PER, amount * FOUNDATION_RATIO / PER;
    assert p + f <= amount;
    SubExact(amount, p + f);
  }

  lemma CommissionExact(rest: nat, ratio: nat)
    requires ratio <= PER && rest * PER < WORD
    ensures Ratio(rest, ratio) <= rest && Ratio(rest, ratio) + Sub(rest, Ratio(rest, ratio)) == rest
  {
    RatioExact(rest, ratio);
    SubExact(rest, Ratio(rest, ratio));
  }

  lemma CommissionFloor(rest: nat, ratio: nat)
    requires ratio <= PER && rest * PER < WORD
    ensures PER * Ratio(rest, ratio) <= rest * ratio < PER * Ratio(rest, ratio) + PER
  {
    RatioExact(rest, ratio);
    Floor(rest * ratio, PER);
  }

  /** The parts add up to the reward. */
  lemma SplitSum(b: CalcBlock)
    requires b.ratio <= PER && b.amount * PER < WORD
    ensures Split(b).project + Split(b).foundation + Split(b).commission + Split(b).voters == b.amount
  {
    RestExact(b.amount);
    MulMonotone(Rest(b.amount), b.amount, PER);
    CommissionExact(Rest(b.amount), b.ratio);
  }

  /** The project party takes 42% and the foundation 40%, rounded down; of what is left the delegate takes
      its ratio's exact floor, and its voters all the rest. So the parts add up to the reward. */
  lemma SplitExact(b: CalcBlock)
    requires b.ratio <= 10000 && b.amount * 10000 < WORD
    ensures var p := Split(b);
            var rest := b.amount - p.project - p.foundation;
            && p.project == b.amount * 4200 / 10000
            && p.foundation == b.amount * 4000 / 10000
            && 10000 * p.commission <= rest * b.ratio < 10000 * p.commission + 10000
            && p.voters == rest - p.commission
    ensures Split(b).project + Split(b).foundation + Split(b).commission + Split(b).voters == b.amount
  {
    SplitSum(b);
    RestExact(b.amount);
    MulMonotone(Rest(b.amount), b.amount, PER);
    CommissionFloor(Rest(b.amount), b.ratio);
    RatioExact(b.amount, PROJECT_RATIO);
    RatioExact(b.amount, FOUNDATION_RATIO);
  }

  /** The recorded total covers the votes and the arithmetic stays within 256 bits. */
  ghost predicate Sound(b: CalcBlock, dv: map<Dest, DelegateVotes>) {
    && b.ratio <= PER && b.amount * PER < WORD
    && (b.mint in dv ==>
          VotesOf(Ascending(dv[b.mint].votes.Keys), dv[b.mint].votes) <= dv[b.mint].total &&
              b.amount * dv[b.mint].total < WORD)
  }

  /** Nothing is left for voters, or there are voters to take it. */
  ghost predicate Complete(b: CalcBlock, dv: map<Dest, DelegateVotes>) {
    Split(b).voters == 0 || (b.mint in dv && dv[b.mint].total > 0 && dv[b.mint].votes != map[])
  }

  /** What a height adds to the total of all entries. */
  ghost function Paid(b: CalcBlock, dv: map<Dest, DelegateVotes>): nat {
    var p := Split(b);
    if b.amount == 0 then 0 else if Complete(b, dv) then b.amount else p.project + p.foundation + p.commission
  }

  /** Conservation at one height: the whole reward when somebody can take the voters' rest, otherwise
      exactly the project, foundation and commission parts. */
  lemma DistributeConserves(r: Rewards, b: CalcBlock, dv: map<Dest, DelegateVotes>, addr: Addresses)
    requires Sound(b, dv) && Sum(r) + b.amount < WORD
    ensures Sum(Distribute(r, b, dv, addr)) == Sum(r) + Paid(b, dv)
    ensures Paid(b, dv) <= b.amount
  {
    SplitSum(b);
    if b.amount != 0 {
      var p := Split(b);
      FixedSum(r, b.mint, p, addr);
      if p.voters != 0 && b.mint in dv && dv[b.mint].total > 0 {
        MulMonotone(p.voters, b.amount, dv[b.mint].total);
        MulMonotone(p.voters, b.amount, PER);
        ToVotersSum(Fixed(r, b.mint, p, addr), dv[b.mint], p.voters, addr.surplus);
      }
    }
  }

  /** The rounding residue is smaller than the number of voters with votes. */
  lemma ResidueIsSmall(r: Rewards, dv: DelegateVotes, reward: nat)
    requires dv.total > 0 && VotesOf(Ascending(dv.votes.Keys), dv.votes) == dv.total
    requires reward * dv.total < WORD && reward * PER < WORD && Sum(r) + reward < WORD
    ensures var keys := Ascending(dv.votes.Keys);
            var acc := PayVoters(r, keys, dv.votes, reward, dv.total);
            acc.distributed <= reward < acc.distributed + Positive(keys, dv.votes)
  {
    var keys := Ascending(dv.votes.Keys);
    var acc := PayVoters(r, keys, dv.votes, reward, dv.total);
    PayVotersExact(r, keys, dv.votes, reward, dv.total);
    ProportionalAtMost(reward, dv.total, dv.total, acc.distributed, Positive(keys, dv.votes));
  }

  // ---------------------------------------------------------------- every single entry

  lemma CreditAt(r: Rewards, k: Dest, recipient: Dest, amount: nat, d: Dest)
    requires Sum(r) + amount < WORD
    ensures AmountAt(Credit(r, k, recipient, amount), d) == AmountAt(r, d) + if d == k then amount else 0
  {
    if k in r {
      TotalAtLeast(Amounts(r), k);
    }
  }

  /** The project, foundation and delegate entries grow by exactly their parts. */
  lemma FixedAt(r: Rewards, mint: Dest, p: Parts, addr: Addresses, d: Dest)
    requires Sum(r) + p.project + p.foundation + p.commission < WORD
    ensures AmountAt(Fixed(r, mint, p, addr), d) == AmountAt(r, d) + (if d == addr.project then p.project else 0)
              + (if d == addr.foundation then p.foundation else 0) + (if d == mint then p.commission else 0)
  {
    CreditAt(r, addr.project, addr.project, p.project, d);
    CreditIfPositiveSum(r, addr.project, p.project);
    var r1 := CreditIfPositive(r, addr.project, p.project);
    CreditAt(r1, addr.foundation, addr.foundation, p.foundation, d);
    CreditIfPositiveSum(r1, addr.foundation, p.foundation);
    CreditAt(CreditIfPositive(r1, addr.foundation, p.foundation), mint, mint, p.commission, d);
  }

  /** Each fixed part is paid to its own address; all other recipients stay. */
  lemma FixedRecipient(r: Rewards, mint: Dest, p: Parts, addr: Addresses, d: Dest)
    ensures var r' := Fixed(r, mint, p, addr);
            var paid := (d == addr.project && p.project > 0) || (d == addr.foundation && p.foundation > 0)
                        || (d == mint && p.commission > 0);
            if paid then d in r' && r'[d].recipient == d
            else (d in r' <==> d in r) && (d in r ==> r'[d].recipient == r[d].recipient)
  {
    var r1 := CreditIfPositive(r, addr.project, p.project);
    var r2 := CreditIfPositive(r1, addr.foundation, p.foundation);
    assert Fixed(r, mint, p, addr) == CreditIfPositive(r2, mint, p.commission);
  }

  /** A vote's share of the reward, in plain arithmetic. */
  ghost function ShareOf(v: Vote, reward: nat, total: nat): nat
    requires total > 0
  {
    reward * v.amount / total
  }

  /** The part of that share the voter keeps. */
  ghost function PartOf(v: Vote, reward: nat, total: nat): nat
    requires total > 0
  {
    if v.rate < 10000 then ShareOf(v, reward, total) * v.rate / 10000 else ShareOf(v, reward, total)
  }

  lemma ZeroOver(t: nat)
    requires t > 0
    ensures 0 / t == 0
  {
  }

  lemma NoVoteNoPart(v: Vote, reward: nat, total: nat)
    requires total > 0 && v.amount == 0
    ensures ShareOf(v, reward, total) == 0 && PartOf(v, reward, total) == 0
  {
    assert reward * v.amount == 0;
    ZeroOver(total);
  }

  /** The 256-bit computation of a vote's share and part is plain arithmetic. */
  lemma PartExact(v: Vote, reward: nat, total: nat)
    requires total > 0 && v.amount <= total && reward * total < WORD && reward * PER < WORD
    ensures Share(reward, v.amount, total) == ShareOf(v, reward, total)
    ensures UserPart(Share(reward, v.amount, total), v.rate) == PartOf(v, reward, total) <= ShareOf(v, reward, total)
  {
    var share := Share(reward, v.amount, total);
    ShareIs(reward, v.amount, total);
    ShareBounds(reward, v.amount, total);
    MulMonotone(share, reward, PER);
    UserPartFloor(share, v.rate);
    UserPartAtMost(share, v.rate);
  }

  /** What a voter's own vote earns it. */
  ghost function VoterPart(votes: map<Dest, Vote>, reward: nat, total: nat, d: Dest): nat
    requires total > 0
  {
    if d in votes then PartOf(votes[d], reward, total) else 0
  }

  lemma PayVoterAt(acc: Acc, k: Dest, v: Vote, reward: nat, total: nat, d: Dest)
    requires total > 0 && v.amount <= total && reward * total < WORD && reward * PER < WORD
    requires v.amount > 0 ==> Sum(acc.rewards) + Share(reward, v.amount, total) < WORD
    ensures AmountAt(PayVoter(acc, k, v, reward, total).rewards, d)
            == AmountAt(acc.rewards, d) + if d == k then PartOf(v, reward, total) else 0
  {
    PartExact(v, reward, total);
    if v.amount > 0 {
      CreditAt(acc.rewards, k, Recipient(k, v), PartOf(v, reward, total), d);
    } else {
      NoVoteNoPart(v, reward, total);
    }
  }

  /** Every voter's entry grows by exactly what its own vote earns. */
  lemma {:induction false} PayVotersAt(r: Rewards, keys: seq<Dest>, votes: map<Dest, Vote>, reward: nat, total: nat,
      d: Dest)
    requires total > 0 && StrictlyAscending(keys) && forall k :: k in keys ==> k in votes
    requires VotesOf(keys, votes) <= total && reward * total < WORD && reward * PER < WORD && Sum(r) + reward < WORD
    ensures AmountAt(PayVoters(r, keys, votes, reward, total).rewards, d)
            == AmountAt(r, d) + if d in keys then VoterPart(votes, reward, total, d) else 0
  {
    if keys != [] {
      var n := |keys| - 1;
      var k := keys[n];
      assert d in keys <==> d in keys[..n] || d == k;
      assert k !in keys[..n];
      PayVotersAt(r, keys[..n], votes, reward, total, d);
      LastShareFits(r, keys, votes, reward, total);
      PayVoterAt(PayVoters(r, keys[..n], votes, reward, total), k, votes[k], reward, total, d);
    }
  }

  /** The last voter's share is still there to be handed out. */
  lemma LastShareFits(r: Rewards, keys: seq<Dest>, votes: map<Dest, Vote>, reward: nat, total: nat)
    requires keys != [] && total > 0 && forall k :: k in keys ==> k in votes
    requires VotesOf(keys, votes) <= total && reward * total < WORD && reward * PER < WORD && Sum(r) + reward < WORD
    ensures var n := |keys| - 1;
            var acc := PayVoters(r, keys[..n], votes, reward, total);
            && Sum(acc.rewards) <= Sum(r) + acc.distributed <= Sum(r) + reward
            && (votes[keys[n]].amount > 0 ==> acc.distributed + Share(reward, votes[keys[n]].amount, total) <= reward)
  {
    var n := |keys| - 1;
    var init, v := keys[..n], votes[keys[n]];
    PayVotersExact(r, init, votes, reward, total);
    if v.amount > 0 {
      var acc := PayVoters(r, init, votes, reward, total);
      ShareBounds(reward, v.amount, total);
      ProportionalStep(reward, VotesOf(init, votes), total, acc.distributed, Positive(init, votes), v.amount,
          Share(reward, v.amount, total));
      ProportionalAtMost(reward, VotesOf(keys, votes), total, acc.distributed + Share(reward, v.amount, total),
          Positive(keys, votes));
    }
  }

  /** A voter is paid itself or through its owner, as its vote says. */
  lemma {:induction false} PayVotersRecipient(r: Rewards, keys: seq<Dest>, votes: map<Dest, Vote>, reward: nat,
      total: nat, d: Dest)
    requires total > 0 && StrictlyAscending(keys) && (forall k :: k in keys ==> k in votes) && d in keys &&
             votes[d].amount > 0
    ensures var r' := PayVoters(r, keys, votes, reward, total).rewards;
            d in r' && r'[d].recipient == if votes[d].toVoter then d else votes[d].owner
  {
    var n := |keys| - 1;
    if d != keys[n] {
      assert d in keys[..n];
      PayVotersRecipient(r, keys[..n], votes, reward, total, d);
    }
  }

  lemma {:induction false} FirstKnownFinds(r: Rewards, keys: seq<Dest>, d: Dest)
    requires d in keys && d in r
    ensures FirstKnown(r, keys).Some? && FirstKnown(r, keys).value in keys
  {
    if keys[0] !in r {
      assert d in keys[1..];
      FirstKnownFinds(r, keys[1..], d);
    }
  }

  /** Who takes the rounding residue. */
  ghost function Taker(r: Rewards, keys: seq<Dest>): Dest
    requires keys != []
  {
    match FirstKnown(r, keys)
    case Some(k) => k
    case None => if r == map[] then keys[0] else Least(r.Keys)
  }

  lemma GiveResidueAt(r: Rewards, keys: seq<Dest>, votes: map<Dest, Vote>, residue: nat, x: Dest)
    requires keys != [] && keys[0] in votes && Sum(r) + residue < WORD
    ensures AmountAt(GiveResidue(r, keys, votes, residue), x)
            == AmountAt(r, x) + if x == Taker(r, keys) then residue else 0
  {
    var k := Taker(r, keys);
    CreditAt(r, k, if k in r then r[k].recipient else Recipient(keys[0], votes[keys[0]]), residue, x);
  }

  /** The rounding residue stays with the voters: when anybody's vote counts, it goes to a voter and to
      nobody else. */
  lemma ResidueStaysWithVoters(r: Rewards, keys: seq<Dest>, votes: map<Dest, Vote>, reward: nat, total: nat,
      surplus: Dest, d: Dest, residue: nat)
    requires total > 0 && StrictlyAscending(keys) && (forall k :: k in keys ==> k in votes) && d in keys &&
             votes[d].amount > 0
    requires Sum(CreditIfPositive(PayVoters(r, keys, votes, reward, total).rewards, surplus,
             PayVoters(r, keys, votes, reward, total).destroyed)) + residue < WORD
    ensures var acc := PayVoters(r, keys, votes, reward, total);
            var r' := CreditIfPositive(acc.rewards, surplus, acc.destroyed);
            && Taker(r', keys) in keys
            && forall x :: AmountAt(GiveResidue(r', keys, votes, residue), x)
                 == AmountAt(r', x) + if x == Taker(r', keys) then residue else 0
  {
    var acc := PayVoters(r, keys, votes, reward, total);
    var r' := CreditIfPositive(acc.rewards, surplus, acc.destroyed);
    PayVotersRecipient(r, keys, votes, reward, total, d);
    FirstKnownFinds(r', keys, d);
    forall x ensures AmountAt(GiveResidue(r', keys, votes, residue), x)
        == AmountAt(r', x) + if x == Taker(r', keys) then residue else 0 {
      GiveResidueAt(r', keys, votes, residue, x);
    }
  }

  /** All the voters' shares together. */
  ghost function Shares(keys: seq<Dest>, votes: map<Dest, Vote>, reward: nat, total: nat): nat
    requires total > 0 && forall k :: k in keys ==> k in votes
  {
    if keys == [] then 0
    else
      var n := |keys| - 1;
      Shares(keys[..n], votes, reward, total) + ShareOf(votes[keys[n]], reward, total)
  }

  /** All that the voters keep of their shares. */
  ghost function Kept(keys: seq<Dest>, votes: map<Dest, Vote>, reward: nat, total: nat): nat
    requires total > 0 && forall k :: k in keys ==> k in votes
  {
    if keys == [] then 0
    else
      var n := |keys| - 1;
      Kept(keys[..n], votes, reward, total) + PartOf(votes[keys[n]], reward, total)
  }

  lemma PayVoterTotals(acc: Acc, k: Dest, v: Vote, reward: nat, total: nat)
    requires total > 0 && v.amount <= total && reward * total < WORD && reward * PER < WORD
    requires acc.distributed + ShareOf(v, reward, total) < WORD && acc.destroyed <= acc.distributed
    ensures var acc' := PayVoter(acc, k, v, reward, total);
            && acc'.distributed == acc.distributed + ShareOf(v, reward, total)
            && acc'.destroyed + PartOf(v, reward, total) == acc.destroyed + ShareOf(v, reward, total)
  {
    PartExact(v, reward, total);
    if v.amount > 0 {
      var share, part := ShareOf(v, reward, total), PartOf(v, reward, total);
      WordExact(acc.distributed, share);
      SubExact(share, part);
      WordExact(acc.destroyed, share - part);
    } else {
      NoVoteNoPart(v, reward, total);
    }
  }

  /** What is counted as distributed is all the shares, and what is kept back is all the voters forgo. */
  lemma {:induction false} PayVotersTotals(r: Rewards, keys: seq<Dest>, votes: map<Dest, Vote>, reward: nat, total: nat)
    requires total > 0 && forall k :: k in keys ==> k in votes
    requires VotesOf(keys, votes) <= total && reward * total < WORD && reward * PER < WORD && Sum(r) + reward < WORD
    ensures var acc := PayVoters(r, keys, votes, reward, total);
            && acc.distributed == Shares(keys, votes, reward, total)
            && acc.destroyed + Kept(keys, votes, reward, total) == Shares(keys, votes, reward, total)
  {
    if keys != [] {
      var n := |keys| - 1;
      PayVotersTotals(r, keys[..n], votes, reward, total);
      RoomForShare(r, keys, votes, reward, total);
      PayVoterTotals(PayVoters(r, keys[..n], votes, reward, total), keys[n], votes[keys[n]], reward, total);
    }
  }

  lemma RoomForShare(r: Rewards, keys: seq<Dest>, votes: map<Dest, Vote>, reward: nat, total: nat)
    requires keys != [] && total > 0 && forall k :: k in keys ==> k in votes
    requires VotesOf(keys, votes) <= total && reward * total < WORD && reward * PER < WORD && Sum(r) + reward < WORD
    ensures var n := |keys| - 1;
            PayVoters(r, keys[..n], votes, reward, total).distributed + ShareOf(votes[keys[n]], reward, total) < WORD
  {
    var v := votes[keys[|keys| - 1]];
    LastShareFits(r, keys, votes, reward, total);
    if v.amount > 0 {
      ShareIs(reward, v.amount, total);
    } else {
      NoVoteNoPart(v, reward, total);
    }
  }

  /** What handing `reward` to the voters adds to the entry of `d`, when `taker` gets the residue. */
  ghost function VoterGain(keys: seq<Dest>, votes: map<Dest, Vote>, reward: nat, total: nat, surplus: Dest,
      taker: Dest, d: Dest): int
    requires total > 0 && forall k :: k in keys ==> k in votes
  {
    (if d in keys then VoterPart(votes, reward, total, d) else 0)
    + (if d == surplus then Shares(keys, votes, reward, total) - Kept(keys, votes, reward, total) else 0)
    + (if d == taker then reward - Shares(keys, votes, reward, total) else 0)
  }

  /** Some vote of the delegate counts. */
  ghost predicate HasVote(votes: map<Dest, Vote>) {
    exists p :: p in votes && votes[p].amount > 0
  }

  /** Who takes the residue when `reward` goes to the voters. */
  ghost function ResidueTaker(keys: seq<Dest>, r: Rewards, dv: DelegateVotes, reward: nat, surplus: Dest): Dest
    requires dv.total > 0 && keys != [] && forall k :: k in keys ==> k in dv.votes
  {
    var acc := PayVoters(r, keys, dv.votes, reward, dv.total);
    Taker(CreditIfPositive(acc.rewards, surplus, acc.destroyed), keys)
  }

  ghost predicate Payable(keys: seq<Dest>, r: Rewards, dv: DelegateVotes, reward: nat) {
    && dv.total > 0 && StrictlyAscending(keys) && keys != [] && (forall k :: k in keys <==> k in dv.votes)
    && VotesOf(keys, dv.votes) <= dv.total
    && reward * dv.total < WORD && reward * PER < WORD && Sum(r) + reward < WORD
  }

  lemma TakerIsVoter(keys: seq<Dest>, r: Rewards, dv: DelegateVotes, reward: nat, surplus: Dest)
    requires Payable(keys, r, dv, reward) && HasVote(dv.votes)
    ensures ResidueTaker(keys, r, dv, reward, surplus) in keys
  {
    var acc := PayVoters(r, keys, dv.votes, reward, dv.total);
    PayVotersExact(r, keys, dv.votes, reward, dv.total);
    CreditIfPositiveSum(acc.rewards, surplus, acc.destroyed);
    var p :| p in dv.votes && dv.votes[p].amount > 0;
    ResidueStaysWithVoters(r, keys, dv.votes, reward, dv.total, surplus, p, 0);
  }

  /** The entries once all voters have their parts and the surplus address what they forgo. */
  lemma BeforeResidue(keys: seq<Dest>, r: Rewards, dv: DelegateVotes, reward: nat, surplus: Dest, d: Dest)
    requires Payable(keys, r, dv, reward)
    ensures var acc := PayVoters(r, keys, dv.votes, reward, dv.total);
            var r' := CreditIfPositive(acc.rewards, surplus, acc.destroyed);
            && acc.distributed == Shares(keys, dv.votes, reward, dv.total) <= reward
            && Sum(r') == Sum(r) + acc.distributed
            && AmountAt(r', d) == AmountAt(r, d)
                 + (if d in keys then VoterPart(dv.votes, reward, dv.total, d) else 0)
                 + (if d == surplus then Shares(keys, dv.votes, reward, dv.total)
                      - Kept(keys, dv.votes, reward, dv.total) else 0)
  {
    var acc := PayVoters(r, keys, dv.votes, reward, dv.total);
    PayVotersExact(r, keys, dv.votes, reward, dv.total);
    PayVotersTotals(r, keys, dv.votes, reward, dv.total);
    CreditIfPositiveSum(acc.rewards, surplus, acc.destroyed);
    PayVotersAt(r, keys, dv.votes, reward, dv.total, d);
    CreditAt(acc.rewards, surplus, surplus, acc.destroyed, d);
  }

  lemma ToVotersInAt(keys: seq<Dest>, r: Rewards, dv: DelegateVotes, reward: nat, surplus: Dest, d: Dest)
    requires Payable(keys, r, dv, reward)
    ensures AmountAt(ToVotersIn(keys, r, dv, reward, surplus), d) == AmountAt(r, d)
              + VoterGain(keys, dv.votes, reward, dv.total, surplus, ResidueTaker(keys, r, dv, reward, surplus), d)
  {
    var acc := PayVoters(r, keys, dv.votes, reward, dv.total);
    BeforeResidue(keys, r, dv, reward, surplus, d);
    SubExact(reward, acc.distributed);
    GiveResidueAt(CreditIfPositive(acc.rewards, surplus, acc.destroyed), keys, dv.votes, reward - acc.distributed, d);
  }

  lemma NoRewardNoPart(v: Vote, total: nat)
    requires total > 0
    ensures ShareOf(v, 0, total) == 0 && PartOf(v, 0, total) == 0
  {
    assert 0 * v.amount == 0;
    ZeroOver(total);
  }

  lemma {:induction false} NothingGained(keys: seq<Dest>, votes: map<Dest, Vote>, total: nat)
    requires total > 0 && forall k :: k in keys ==> k in votes
    ensures Shares(keys, votes, 0, total) == 0 && Kept(keys, votes, 0, total) == 0
  {
    if keys != [] {
      NothingGained(keys[..|keys| - 1], votes, total);
      NoRewardNoPart(votes[keys[|keys| - 1]], total);
    }
  }

  /** What a height with reward `amount` adds to the entry of `d`, apart from the voters' part. */
  ghost function FixedGain(b: CalcBlock, addr: Addresses, d: Dest): nat {
    var p := Split(b);
    (if d == addr.project then p.project else 0) + (if d == addr.foundation then p.foundation else 0)
    + (if d == b.mint then p.commission else 0)
  }

  lemma NoGain(keys: seq<Dest>, votes: map<Dest, Vote>, total: nat, surplus: Dest, taker: Dest, d: Dest)
    requires total > 0 && forall k :: k in keys ==> k in votes
    ensures VoterGain(keys, votes, 0, total, surplus, taker, d) == 0
  {
    NothingGained(keys, votes, total);
    if d in keys {
      NoRewardNoPart(votes[d], total);
    }
  }

  lemma VotersPayable(r: Rewards, b: CalcBlock, v: DelegateVotes, addr: Addresses)
    requires HeightFits(r, b, v)
    ensures Payable(Ascending(v.votes.Keys), Fixed(r, b.mint, Split(b), addr), v, Split(b).voters)
    ensures Sum(r) + Split(b).project + Split(b).foundation + Split(b).commission < WORD
  {
    SplitSum(b);
    MulMonotone(Split(b).voters, b.amount, v.total);
    MulMonotone(Split(b).voters, b.amount, PER);
    FixedSum(r, b.mint, Split(b), addr);
  }

  ghost predicate HeightFits(r: Rewards, b: CalcBlock, v: DelegateVotes) {
    && b.ratio <= PER && b.amount * PER < WORD && b.amount * v.total < WORD && Sum(r) + b.amount < WORD
    && VotesOf(Ascending(v.votes.Keys), v.votes) <= v.total && Ascending(v.votes.Keys) != [] && v.total > 0
  }

  lemma VotersPaidAt(r: Rewards, b: CalcBlock, v: DelegateVotes, addr: Addresses, taker: Dest, d: Dest)
    requires HeightFits(r, b, v)
    requires taker ==
             ResidueTaker(Ascending(v.votes.Keys), Fixed(r, b.mint, Split(b), addr), v, Split(b).voters, addr.surplus)
    ensures AmountAt(ToVoters(Fixed(r, b.mint, Split(b), addr), v, Split(b).voters, addr.surplus), d)
              == AmountAt(r, d) + FixedGain(b, addr, d)
                + VoterGain(Ascending(v.votes.Keys), v.votes, Split(b).voters, v.total, addr.surplus, taker, d)
  {
    var r', keys, reward := Fixed(r, b.mint, Split(b), addr), Ascending(v.votes.Keys), Split(b).voters;
    VotersPayable(r, b, v, addr);
    ToVotersInAt(keys, r', v, reward, addr.surplus, d);
    FixedAt(r, b.mint, Split(b), addr, d);
  }

  lemma VotersPaid(r: Rewards, b: CalcBlock, v: DelegateVotes, addr: Addresses) returns (taker: Dest)
    requires HeightFits(r, b, v)
    ensures HasVote(v.votes) ==> taker in v.votes
    ensures forall d :: AmountAt(ToVoters(Fixed(r, b.mint, Split(b), addr), v, Split(b).voters, addr.surplus), d)
              == AmountAt(r, d) + FixedGain(b, addr, d)
                + VoterGain(Ascending(v.votes.Keys), v.votes, Split(b).voters, v.total, addr.surplus, taker, d)
  {
    VotersPayable(r, b, v, addr);
    taker := ResidueTaker(Ascending(v.votes.Keys), Fixed(r, b.mint, Split(b), addr), v, Split(b).voters, addr.surplus);
    if HasVote(v.votes) {
      TakerIsVoter(Ascending(v.votes.Keys), Fixed(r, b.mint, Split(b), addr), v, Split(b).voters, addr.surplus);
    }
    forall d ensures AmountAt(ToVoters(Fixed(r, b.mint, Split(b), addr), v, Split(b).voters, addr.surplus), d)
        == AmountAt(r, d) + FixedGain(b, addr, d)
          + VoterGain(Ascending(v.votes.Keys), v.votes, Split(b).voters, v.total, addr.surplus, taker, d) {
      VotersPaidAt(r, b, v, addr, taker, d);
    }
  }

  /** What one height adds to the entry of `d`. Without voters, or without a vote total, only the fixed
      parts are paid. */
  ghost function Gain(b: CalcBlock, dv: map<Dest, DelegateVotes>, addr: Addresses, taker: Dest, d: Dest): int {
    if b.mint in dv && dv[b.mint].total > 0 && dv[b.mint].votes != map[]
      then FixedGain(b, addr, d) + VoterGain(Ascending(dv[b.mint].votes.Keys), dv[b.mint].votes, Split(b).voters,
        dv[b.mint].total, addr.surplus, taker, d)
    else FixedGain(b, addr, d)
  }

  lemma NoVotersPart(r: Rewards, b: CalcBlock, dv: map<Dest, DelegateVotes>, addr: Addresses, taker: Dest, d: Dest)
    requires Sound(b, dv) && Sum(r) + b.amount < WORD && Split(b).voters == 0
    ensures AmountAt(Distribute(r, b, dv, addr), d) == AmountAt(r, d) + Gain(b, dv, addr, taker, d)
  {
    SplitSum(b);
    FixedAt(r, b.mint, Split(b), addr, d);
    if b.mint in dv && dv[b.mint].total > 0 {
      NoGain(Ascending(dv[b.mint].votes.Keys), dv[b.mint].votes, dv[b.mint].total, addr.surplus, taker, d);
    }
  }

  lemma NobodyToPay(r: Rewards, b: CalcBlock, dv: map<Dest, DelegateVotes>, addr: Addresses, d: Dest)
    requires Sound(b, dv) && Sum(r) + b.amount < WORD
    requires b.mint in dv ==> dv[b.mint].total == 0 || dv[b.mint].votes == map[]
    ensures AmountAt(Distribute(r, b, dv, addr), d) == AmountAt(r, d) + FixedGain(b, addr, d)
  {
    SplitSum(b);
    FixedAt(r, b.mint, Split(b), addr, d);
    if b.mint in dv {
      assert dv[b.mint].votes == map[] ==> |Ascending(dv[b.mint].votes.Keys)| == 0;
    }
  }

  /** Every entry after one height, in full: the project, foundation and delegate parts go to their own
      addresses, each voter gets its own part, what voters forgo goes to the surplus address, and the
      rounding residue to a single address, a voter's whenever some vote counts. */
  lemma DistributeEntries(r: Rewards, b: CalcBlock, dv: map<Dest, DelegateVotes>, addr: Addresses)
      returns (taker: Dest)
    requires Sound(b, dv) && Sum(r) + b.amount < WORD
    ensures b.mint in dv && dv[b.mint].total > 0 && HasVote(dv[b.mint].votes) && Split(b).voters > 0 ==>
              taker in dv[b.mint].votes
    ensures forall d :: AmountAt(Distribute(r, b, dv, addr), d) == AmountAt(r, d) + Gain(b, dv, addr, taker, d)
  {
    SplitSum(b);
    taker := b.mint;
    if Split(b).voters == 0 {
      forall d ensures AmountAt(Distribute(r, b, dv, addr), d) == AmountAt(r, d) + Gain(b, dv, addr, taker, d) {
        NoVotersPart(r, b, dv, addr, taker, d);
      }
    } else if b.mint in dv && dv[b.mint].total > 0 && dv[b.mint].votes != map[] {
      assert |Ascending(dv[b.mint].votes.Keys)| == |dv[b.mint].votes.Keys|;
      taker := VotersPaid(r, b, dv[b.mint], addr);
    } else {
      forall d ensures AmountAt(Distribute(r, b, dv, addr), d) == AmountAt(r, d) + Gain(b, dv, addr, taker, d) {
        NobodyToPay(r, b, dv, addr, d);
      }
    }
  }

  // ---------------------------------------------------------------- the walker

  /** CListDayVoteWalker. */
  class DayVoteWalker {
    const addr: Addresses
    const calcBlocks: map<nat, CalcBlock>
    var rewards: Rewards

    constructor (addr: Addresses, calcBlocks: map<nat, CalcBlock>, rewards: Rewards)
      ensures this.addr == addr && this.calcBlocks == calcBlocks && this.rewards == rewards
    {
      this.addr, this.calcBlocks, this.rewards := addr, calcBlocks, rewards;
    }

    method PayAll(keys: seq<Dest>, votes: map<Dest, Vote>, reward: nat, total: nat)
        returns (distributed: nat, destroyed: nat)
      requires total > 0 && forall k :: k in keys ==> k in votes
      modifies this
      ensures Acc(rewards, distributed, destroyed) == PayVoters(old(rewards), keys, votes, reward, total)
    {
      distributed, destroyed := 0, 0;
      ghost var r := rewards;
      var i := 0;
      while i < |keys|
        invariant 0 <= i <= |keys|
        invariant Acc(rewards, distributed, destroyed) == PayVoters(r, keys[..i], votes, reward, total)
      {
        assert keys[..i+1][..i] == keys[..i];
        var k, v := keys[i], votes[keys[i]];
        if v.amount > 0 {
          var share := Mul(reward, v.amount) / total;
          var user := share;
          if v.rate < PER {
            user := Mul(share, v.rate) / PER;
            destroyed := Add(destroyed, Sub(share, user));
          }
          rewards := rewards[k := Entry(if v.toVoter then k else v.owner, Add(AmountAt(rewards, k), user))];
          distributed := Add(distributed, share);
        }
        i := i + 1;
      }
      assert keys[..i] == keys;
    }

    method GiveRest(keys: seq<Dest>, votes: map<Dest, Vote>, residue: nat)
      requires keys != [] && keys[0] in votes
      modifies this
      ensures rewards == GiveResidue(old(rewards), keys, votes, residue)
    {
      var i := 0;
      while i < |keys|
        invariant 0 <= i <= |keys|
        invariant FirstKnown(rewards, keys) == FirstKnown(rewards, keys[i..])
      {
        if keys[i] in rewards {
          rewards := rewards[keys[i] := rewards[keys[i]].(amount := Add(rewards[keys[i]].amount, residue))];
          return;
        }
        i := i + 1;
      }
      if rewards == map[] {
        rewards := rewards[keys[0] := Entry(Recipient(keys[0], votes[keys[0]]), Add(0, residue))];
      } else {
        var k := Least(rewards.Keys);
        rewards := rewards[k := rewards[k].(amount := Add(rewards[k].amount, residue))];
      }
    }

    method PayFixed(b: CalcBlock) returns (reward: nat)
      modifies this
      ensures rewards == Fixed(old(rewards), b.mint, Split(b), addr) && reward == Split(b).voters
    {
      var project := Ratio(b.amount, PROJECT_RATIO);
      var foundation := Ratio(b.amount, FOUNDATION_RATIO);
      rewards := CreditIfPositive(rewards, addr.project, project);
      rewards := CreditIfPositive(rewards, addr.foundation, foundation);
      reward := Sub(b.amount, Add(project, foundation));
      if b.ratio != 0 {
        var commission := Ratio(reward, b.ratio);
        rewards := CreditIfPositive(rewards, b.mint, commission);
        reward := Sub(reward, commission);
      }
    }

    method PayDelegate(keys: seq<Dest>, dv: DelegateVotes, reward: nat)
      requires dv.total > 0 && forall k :: k in keys ==> k in dv.votes
      modifies this
      ensures rewards == ToVotersIn(keys, old(rewards), dv, reward, addr.surplus)
    {
      var distributed, destroyed := PayAll(keys, dv.votes, reward, dv.total);
      rewards := CreditIfPositive(rewards, addr.surplus, destroyed);
      if keys != [] && reward > distributed {
        GiveRest(keys, dv.votes, Sub(reward, distributed));
      }
    }

    /** Called once per height with the votes of that height, which reward the block above it. */
    method Walk(height: nat, dv: map<Dest, DelegateVotes>)
      modifies this
      ensures rewards == DistributeAt(old(rewards), calcBlocks, height + 1, dv, addr)
    {
      if height + 1 !in calcBlocks || calcBlocks[height + 1].amount == 0 {
        return;
      }
      var b := calcBlocks[height + 1];
      var reward := PayFixed(b);
      if reward == 0 || b.mint !in dv || dv[b.mint].total == 0 {
        return;
      }
      PayDelegate(Ascending(dv[b.mint].votes.Keys), dv[b.mint], reward);
    }
  }
}
