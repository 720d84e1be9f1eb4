/** CBlockChain::VerifyBlockTx (src/blockchain/blockchain.cpp) and the balance and nonce checks of
    CCoreProtocol::VerifyTransaction (src/blockchain/core.cpp): the running account states of a block. */
module Ledger {
  import opened Common
  import opened Transactions

  /** CDestState: a 256-bit balance and a 64-bit nonce. */
  datatype Account = Account(balance: nat, nonce: nat)

  type Accounts = map<Dest, Account>

  datatype Errno = OK | TransactionInvalid | InputInvalid | MissingPrev | OtherCheck | BlockTransactionsInvalid

  const NONCES: nat := 0x1_00000000_00000000

  function NextNonce(n: nat): nat { (n + 1) % NONCES }

  /** An address that has no state yet has the null state. */
  function Look(m: Accounts, d: Dest): Account {
    if d in m then m[d] else Account(0, 0)
  }

  /** The state of an address, loaded into the block's own map when first needed. */
  function Load(store: Accounts, states: Accounts, d: Dest): (s: Accounts)
    ensures d in s
  {
    if d in states then states else states[d := Look(store, d)]
  }

  function Receive(store: Accounts, states: Accounts, d: Dest, amount: nat): Accounts {
    if amount == 0 then states
    else
      var s := Load(store, states, d);
      s[d := s[d].(balance := Add(s[d].balance, amount))]
  }

  /** CCoreProtocol::VerifyTransaction; `refused` are the transactions its other checks turn down. */
  function VerifyTransaction(a: Account, tx: Tx, refused: set<Tx>): Errno {
    if a.balance < Add(tx.amount, tx.fee) then InputInvalid
    else if !tx.kind.CertTx? && tx.nonce != NextNonce(a.nonce) then MissingPrev
    else if tx in refused then OtherCheck
    else OK
  }

  function Spend(a: Account, tx: Tx): Account {
    Account(Sub(a.balance, Add(tx.amount, tx.fee)), if tx.kind.CertTx? then a.nonce else NextNonce(a.nonce))
  }

  datatype Outcome = Failed(err: Errno) | Done(states: Accounts)

  /** An ordinary transaction. */
  function Transfer(store: Accounts, states: Accounts, tx: Tx, refused: set<Tx>): Outcome {
    if tx.kind.VoteRewardTx? then Failed(TransactionInvalid)
    else if tx.from == 0 then Done(Receive(store, states, tx.to, tx.amount))
    else
      var s := Load(store, states, tx.from);
      var err := VerifyTransaction(s[tx.from], tx, refused);
      if err != OK then Failed(err)
      else Done(Receive(store, s[tx.from := Spend(s[tx.from], tx)], tx.to, tx.amount))
  }

  function Apply(store: Accounts, states: Accounts, tx: Tx, reward: bool, refused: set<Tx>): Outcome {
    if reward then
      if tx.kind.VoteRewardTx? then Done(Receive(store, states, tx.to, tx.amount)) else Failed(TransactionInvalid)
    else Transfer(store, states, tx, refused)
  }

  /** The states after all transactions, of which the first `ignore` are vote rewards. */
  function Run(store: Accounts, vtx: seq<Tx>, ignore: nat, refused: set<Tx>): Outcome {
    if vtx == [] then Done(map[])
    else
      var n := |vtx| - 1;
      match Run(store, vtx[..n], ignore, refused)
      case Failed(err) => Failed(err)
      case Done(states) => Apply(store, states, vtx[n], n < ignore, refused)
  }

  function Fees(vtx: seq<Tx>): nat {
    if vtx == [] then 0 else Add(Fees(vtx[..|vtx|-1]), vtx[|vtx|-1].fee)
  }

  /** The verdict on a block's transactions. */
  function Verdict(store: Accounts, vtx: seq<Tx>, ignore: nat, refused: set<Tx>, mint: nat, reward: nat): Errno {
    match Run(store, vtx, ignore, refused)
    case Failed(err) => err
    case Done(_) => if mint > Add(Fees(vtx), reward) then BlockTransactionsInvalid else OK
  }

  lemma {:induction false} FailureStays(store: Accounts, vtx: seq<Tx>, ignore: nat, refused: set<Tx>, i: nat)
    requires i <= |vtx| && Run(store, vtx[..i], ignore, refused).Failed?
    ensures Run(store, vtx, ignore, refused) == Run(store, vtx[..i], ignore, refused)
    decreases |vtx|
  {
    if i == |vtx| {
      assert vtx[..i] == vtx;
    } else {
      assert vtx[..|vtx|-1][..i] == vtx[..i];
      FailureStays(store, vtx[..|vtx|-1], ignore, refused, i);
    }
  }

  /** Errors are those of failing transactions. */
  lemma {:induction false} FailureIsError(store: Accounts, vtx: seq<Tx>, ignore: nat, refused: set<Tx>)
    ensures Run(store, vtx, ignore, refused).Failed? ==> Run(store, vtx, ignore, refused).err != OK
  {
    if vtx != [] {
      FailureIsError(store, vtx[..|vtx|-1], ignore, refused);
    }
  }

  /** A block is accepted exactly when all its transactions are and the mint is covered. */
  lemma AcceptedIff(store: Accounts, vtx: seq<Tx>, ignore: nat, refused: set<Tx>, mint: nat, reward: nat)
    ensures Verdict(store, vtx, ignore, refused, mint, reward) == OK
            <==> Run(store, vtx, ignore, refused).Done? && mint <= Add(Fees(vtx), reward)
  {
    FailureIsError(store, vtx, ignore, refused);
  }

  method VerifyBlockTx(store: Accounts, vtx: seq<Tx>, ignore: nat, refused: set<Tx>, mint: nat, reward: nat)
      returns (err: Errno)
    ensures err == Verdict(store, vtx, ignore, refused, mint, reward)
    ensures NoOverflow(store, vtx, ignore, reward) ==>
              (err == OK <==> AllAdmissible(store, vtx, ignore, refused) && mint <= FeeTotal(vtx) + reward)
  {
    if NoOverflow(store, vtx, ignore, reward) {
      VerdictIff(store, vtx, ignore, refused, mint, reward);
    }
    var states: Accounts, totalFee := map[], 0;
    var left := ignore;
    var i := 0;
    while i < |vtx|
      invariant 0 <= i <= |vtx| && left == if i < ignore then ignore - i else 0
      invariant Run(store, vtx[..i], ignore, refused) == Done(states)
      invariant totalFee == Fees(vtx[..i])
    {
      assert vtx[..i+1][..i] == vtx[..i];
      var next := ApplyTx(store, states, vtx[i], left > 0, refused);
      if next.Failed? {
        FailureStays(store, vtx, ignore, refused, i + 1);
        return next.err;
      }
      states := next.states;
      left := if left > 0 then left - 1 else 0;
      totalFee := Add(totalFee, vtx[i].fee);
      i := i + 1;
    }
    assert vtx[..i] == vtx;
    if mint > Add(totalFee, reward) {
      return BlockTransactionsInvalid;
    }
    return OK;
  }

  method ApplyTx(store: Accounts, start: Accounts, tx: Tx, reward: bool, refused: set<Tx>) returns (r: Outcome)
    ensures r == Apply(store, start, tx, reward, refused)
  {
    var states := start;
    if reward {
      if !tx.kind.VoteRewardTx? {
        return Failed(TransactionInvalid);
      }
    } else {
      if tx.kind.VoteRewardTx? {
        return Failed(TransactionInvalid);
      }
      if tx.from != 0 {
        if tx.from !in states {
          states := states[tx.from := Look(store, tx.from)];
        }
        var err := VerifyTransaction(states[tx.from], tx, refused);
        if err != OK {
          return Failed(err);
        }
        states := states[tx.from := Spend(states[tx.from], tx)];
      }
    }
    if tx.amount > 0 {
      if tx.to !in states {
        states := states[tx.to := Look(store, tx.to)];
      }
      states := states[tx.to := states[tx.to].(balance := Add(states[tx.to].balance, tx.amount))];
    }
    return Done(states);
  }

  // ---------------------------------------------------------------- money

  ghost function Balances(m: Accounts): map<Dest, nat> {
    map d | d in m :: m[d].balance
  }

  ghost function Money(m: Accounts): nat {
    Total(Balances(m))
  }

  /** The ledger after the block: its own states over the stored ones. */
  ghost function Merged(store: Accounts, states: Accounts): Accounts {
    store + states
  }

  lemma MoneySet(m: Accounts, d: Dest, a: Account)
    ensures Money(m[d := a]) == Money(m) - Look(m, d).balance + a.balance
    ensures Look(m, d).balance <= Money(m)
  {
    assert Balances(m[d := a]) == Balances(m)[d := a.balance];
    TotalUpdate(Balances(m), d, a.balance);
    if d in m {
      TotalAtLeast(Balances(m), d);
    }
  }

  lemma MergedSet(store: Accounts, states: Accounts, d: Dest, a: Account)
    ensures Merged(store, states[d := a]) == Merged(store, states)[d := a]
    ensures Look(Merged(store, states), d) == if d in states then states[d] else Look(store, d)
  {
  }

  /** Loading an address changes nothing. */
  lemma LoadKeeps(store: Accounts, states: Accounts, d: Dest)
    ensures Money(Merged(store, Load(store, states, d))) == Money(Merged(store, states))
    ensures forall e :: Look(Merged(store, Load(store, states, d)), e) == Look(Merged(store, states), e)
  {
    if d !in states {
      MergedSet(store, states, d, Look(store, d));
      MoneySet(Merged(store, states), d, Look(store, d));
    }
  }

  lemma ReceiveMoney(store: Accounts, states: Accounts, d: Dest, amount: nat)
    requires Money(Merged(store, states)) + amount < WORD
    ensures Money(Merged(store, Receive(store, states, d, amount))) == Money(Merged(store, states)) + amount
  {
    if amount > 0 {
      LoadKeeps(store, states, d);
      var s := Load(store, states, d);
      var a := s[d].(balance := Add(s[d].balance, amount));
      MergedSet(store, s, d, a);
      MoneySet(Merged(store, s), d, a);
    }
  }

  lemma SpendMoney(store: Accounts, states: Accounts, tx: Tx)
    requires tx.from in states && tx.amount + tx.fee <= states[tx.from].balance && Money(Merged(store, states)) < WORD
    ensures Money(Merged(store, states[tx.from := Spend(states[tx.from], tx)])) ==
            Money(Merged(store, states)) - tx.amount - tx.fee
  {
    var a := Spend(states[tx.from], tx);
    MergedSet(store, states, tx.from, a);
    MoneySet(Merged(store, states), tx.from, a);
    SubExact(states[tx.from].balance, tx.amount + tx.fee);
  }

  /** The transaction takes its amount and fee from a sender. */
  ghost predicate Funded(tx: Tx, reward: bool) {
    !reward && tx.from != 0
  }

  /** One transaction moves money, apart from the fee, or issues it when it has no sender. */
  lemma ApplyMoney(store: Accounts, states: Accounts, tx: Tx, reward: bool, refused: set<Tx>)
    requires Apply(store, states, tx, reward, refused).Done? && tx.amount + tx.fee < WORD
    requires Money(Merged(store, states)) + (if Funded(tx, reward) then 0 else tx.amount) < WORD
    ensures Money(Merged(store, Apply(store, states, tx, reward, refused).states)) +
            (if Funded(tx, reward) then tx.fee else 0)
            == Money(Merged(store, states)) + (if Funded(tx, reward) then 0 else tx.amount)
  {
    if Funded(tx, reward) {
      LoadKeeps(store, states, tx.from);
      var s := Load(store, states, tx.from);
      SpendMoney(store, s, tx);
      ReceiveMoney(store, s[tx.from := Spend(s[tx.from], tx)], tx.to, tx.amount);
    } else {
      ReceiveMoney(store, states, tx.to, tx.amount);
    }
  }

  /** What the transactions issue: vote rewards and amounts without a sender. */
  ghost function Issued(vtx: seq<Tx>, ignore: nat): nat {
    if vtx == [] then 0
    else
      var n := |vtx| - 1;
      Issued(vtx[..n], ignore) + if Funded(vtx[n], n < ignore) then 0 else vtx[n].amount
  }

  ghost function FeesPaid(vtx: seq<Tx>, ignore: nat): nat {
    if vtx == [] then 0
    else
      var n := |vtx| - 1;
      FeesPaid(vtx[..n], ignore) + if Funded(vtx[n], n < ignore) then vtx[n].fee else 0
  }

  /** Amount and fee are each within the money range, so their sum does not wrap around. */
  ghost predicate InRange(vtx: seq<Tx>) {
    forall i :: 0 <= i < |vtx| ==> vtx[i].amount + vtx[i].fee < WORD
  }

  /** The block ledger: the money after an accepted run is the money before, plus what is issued,
      minus the fees. */
  lemma {:induction false} RunMoney(store: Accounts, vtx: seq<Tx>, ignore: nat, refused: set<Tx>)
    requires Run(store, vtx, ignore, refused).Done? && InRange(vtx) && Money(store) + Issued(vtx, ignore) < WORD
    ensures Money(Merged(store, Run(store, vtx, ignore, refused).states)) + FeesPaid(vtx, ignore) == Money(store) +
            Issued(vtx, ignore)
  {
    if vtx == [] {
      assert Merged(store, map[]) == store;
    } else {
      var n := |vtx| - 1;
      RunMoney(store, vtx[..n], ignore, refused);
      ApplyMoney(store, Run(store, vtx[..n], ignore, refused).states, vtx[n], n < ignore, refused);
    }
  }

  // ---------------------------------------------------------------- every single balance

  ghost function Sent(vtx: seq<Tx>, ignore: nat, d: Dest): nat {
    if vtx == [] then 0
    else
      var n := |vtx| - 1;
      Sent(vtx[..n], ignore, d) + if Funded(vtx[n], n < ignore) &&
          vtx[n].from == d then vtx[n].amount + vtx[n].fee else 0
  }

  ghost function Received(vtx: seq<Tx>, d: Dest): nat {
    if vtx == [] then 0
    else
      var n := |vtx| - 1;
      Received(vtx[..n], d) + if vtx[n].to == d then vtx[n].amount else 0
  }

  /** The running state of an address. */
  function AccountOf(store: Accounts, states: Accounts, d: Dest): Account {
    if d in states then states[d] else Look(store, d)
  }

  lemma BalanceAtMost(store: Accounts, states: Accounts, d: Dest)
    ensures AccountOf(store, states, d).balance <= Money(Merged(store, states))
  {
    MergedSet(store, states, d, Account(0, 0));
    MoneySet(Merged(store, states), d, Account(0, 0));
  }

  lemma ReceiveBalance(store: Accounts, states: Accounts, to: Dest, amount: nat, d: Dest)
    requires AccountOf(store, states, to).balance + amount < WORD
    ensures AccountOf(store, Receive(store, states, to, amount), d).balance
            == AccountOf(store, states, d).balance + if to == d then amount else 0
  {
  }

  lemma SpendBalance(store: Accounts, states: Accounts, tx: Tx, d: Dest)
    requires tx.from in states && tx.amount + tx.fee <= states[tx.from].balance < WORD
    ensures AccountOf(store, states[tx.from := Spend(states[tx.from], tx)], d).balance +
            (if tx.from == d then tx.amount + tx.fee else 0)
            == AccountOf(store, states, d).balance
  {
    SubExact(states[tx.from].balance, tx.amount + tx.fee);
  }

  lemma MoveBalance(store: Accounts, s: Accounts, tx: Tx, d: Dest)
    requires tx.from in s && tx.amount + tx.fee <= s[tx.from].balance && Money(Merged(store, s)) < WORD
    ensures AccountOf(store, Receive(store, s[tx.from := Spend(s[tx.from], tx)], tx.to, tx.amount), d).balance
              + (if tx.from == d then tx.amount + tx.fee else 0)
            == AccountOf(store, s, d).balance + (if tx.to == d then tx.amount else 0)
  {
    BalanceAtMost(store, s, tx.from);
    SpendBalance(store, s, tx, d);
    SpendMoney(store, s, tx);
    var s' := s[tx.from := Spend(s[tx.from], tx)];
    BalanceAtMost(store, s', tx.to);
    ReceiveBalance(store, s', tx.to, tx.amount, d);
  }

  lemma ApplyBalance(store: Accounts, states: Accounts, tx: Tx, reward: bool, refused: set<Tx>, d: Dest)
    requires Apply(store, states, tx, reward, refused).Done? && tx.amount + tx.fee < WORD
    requires Money(Merged(store, states)) + (if Funded(tx, reward) then 0 else tx.amount) < WORD
    ensures AccountOf(store, Apply(store, states, tx, reward, refused).states, d).balance
              + (if Funded(tx, reward) && tx.from == d then tx.amount + tx.fee else 0)
            == AccountOf(store, states, d).balance + (if tx.to == d then tx.amount else 0)
  {
    if Funded(tx, reward) {
      LoadKeeps(store, states, tx.from);
      MoveBalance(store, Load(store, states, tx.from), tx, d);
    } else {
      BalanceAtMost(store, states, tx.to);
      ReceiveBalance(store, states, tx.to, tx.amount, d);
    }
  }

  /** No balance ever goes below zero: each ends at its start plus what it received minus what it
      sent with fees, exactly. */
  lemma {:induction false} RunBalance(store: Accounts, vtx: seq<Tx>, ignore: nat, refused: set<Tx>, d: Dest)
    requires Run(store, vtx, ignore, refused).Done? && InRange(vtx) && Money(store) + Issued(vtx, ignore) < WORD
    ensures AccountOf(store, Run(store, vtx, ignore, refused).states, d).balance + Sent(vtx, ignore, d)
            == Look(store, d).balance + Received(vtx, d)
  {
    if vtx != [] {
      var n := |vtx| - 1;
      RunMoney(store, vtx[..n], ignore, refused);
      RunBalance(store, vtx[..n], ignore, refused, d);
      ApplyBalance(store, Run(store, vtx[..n], ignore, refused).states, vtx[n], n < ignore, refused, d);
    }
  }

  // ---------------------------------------------------------------- nonces

  /** The transaction consumes a nonce of d. */
  ghost predicate Consumes(tx: Tx, reward: bool, d: Dest) {
    !reward && tx.from == d != 0 && !tx.kind.CertTx?
  }

  ghost function Consumed(vtx: seq<Tx>, ignore: nat, d: Dest): nat {
    if vtx == [] then 0
    else
      var n := |vtx| - 1;
      Consumed(vtx[..n], ignore, d) + if Consumes(vtx[n], n < ignore, d) then 1 else 0
  }

  lemma ApplyNonce(store: Accounts, states: Accounts, tx: Tx, reward: bool, refused: set<Tx>, d: Dest)
    requires Apply(store, states, tx, reward, refused).Done?
    ensures AccountOf(store, Apply(store, states, tx, reward, refused).states, d).nonce
            == if Consumes(tx, reward, d) then NextNonce(AccountOf(store, states, d).nonce)
                else AccountOf(store, states, d).nonce
    ensures Consumes(tx, reward, d) ==> tx.nonce == NextNonce(AccountOf(store, states, d).nonce)
  {
  }

  lemma {:induction false} RunNonce(store: Accounts, vtx: seq<Tx>, ignore: nat, refused: set<Tx>, d: Dest)
    requires Run(store, vtx, ignore, refused).Done? && Look(store, d).nonce + Consumed(vtx, ignore, d) < NONCES
    ensures AccountOf(store, Run(store, vtx, ignore, refused).states, d).nonce == Look(store, d).nonce +
            Consumed(vtx, ignore, d)
  {
    if vtx != [] {
      var n := |vtx| - 1;
      RunNonce(store, vtx[..n], ignore, refused, d);
      ApplyNonce(store, Run(store, vtx[..n], ignore, refused).states, vtx[n], n < ignore, refused, d);
    }
  }

  lemma LastNonce(store: Accounts, vtx: seq<Tx>, ignore: nat, refused: set<Tx>, d: Dest)
    requires vtx != [] && Run(store, vtx, ignore, refused).Done? &&
             Look(store, d).nonce + Consumed(vtx, ignore, d) < NONCES
    requires Consumes(vtx[|vtx|-1], |vtx| - 1 < ignore, d)
    ensures vtx[|vtx|-1].nonce == Look(store, d).nonce + Consumed(vtx[..|vtx|-1], ignore, d) + 1
  {
    var n := |vtx| - 1;
    RunNonce(store, vtx[..n], ignore, refused, d);
    var states := Run(store, vtx[..n], ignore, refused).states;
    assert Apply(store, states, vtx[n], n < ignore, refused).Done?;
    NextInRange(AccountOf(store, states, d).nonce);
    ApplyNonce(store, states, vtx[n], n < ignore, refused, d);
  }

  lemma NextInRange(n: nat)
    requires n + 1 < NONCES
    ensures NextNonce(n) == n + 1
  {
  }

  /** A sender's nonces are used in order, without gaps. */
  lemma {:induction false} NonceAt(store: Accounts, vtx: seq<Tx>, ignore: nat, refused: set<Tx>, d: Dest, i: nat)
    requires Run(store, vtx, ignore, refused).Done? && Look(store, d).nonce + Consumed(vtx, ignore, d) < NONCES
    requires i < |vtx| && Consumes(vtx[i], i < ignore, d)
    ensures vtx[i].nonce == Look(store, d).nonce + Consumed(vtx[..i], ignore, d) + 1
    decreases |vtx|
  {
    var n := |vtx| - 1;
    if i < n {
      assert vtx[..n][..i] == vtx[..i];
      NonceAt(store, vtx[..n], ignore, refused, d, i);
    } else {
      LastNonce(store, vtx, ignore, refused, d);
    }
  }

  lemma {:induction false} ConsumedGrows(vtx: seq<Tx>, ignore: nat, d: Dest, i: nat)
    requires i < |vtx| && Consumes(vtx[i], i < ignore, d)
    ensures Consumed(vtx[..i], ignore, d) < Consumed(vtx, ignore, d)
    decreases |vtx|
  {
    var n := |vtx| - 1;
    if i < n {
      assert vtx[..n][..i] == vtx[..i] && vtx[..n][i] == vtx[i];
      ConsumedGrows(vtx[..n], ignore, d, i);
    }
  }

  /** No replay within a block: two transactions of one sender carry increasing nonces. */
  lemma NoncesIncrease(store: Accounts, vtx: seq<Tx>, ignore: nat, refused: set<Tx>, d: Dest, i: nat, j: nat)
    requires Run(store, vtx, ignore, refused).Done? && Look(store, d).nonce + Consumed(vtx, ignore, d) < NONCES
    requires i < j < |vtx| && Consumes(vtx[i], i < ignore, d) && Consumes(vtx[j], j < ignore, d)
    ensures Look(store, d).nonce < vtx[i].nonce < vtx[j].nonce
  {
    NonceAt(store, vtx, ignore, refused, d, i);
    NonceAt(store, vtx, ignore, refused, d, j);
    ConsumedGrows(vtx[..j], ignore, d, i);
    assert vtx[..j][..i] == vtx[..i];
  }

  // ---------------------------------------------------------------- exactly when a block is accepted

  /** The first thing wrong with transaction `i`, from the block's own history and the stored ledger
      alone. What its sender may spend is its stored balance, plus what it received earlier in the
      block, minus what it sent. */
  ghost function Complaint(store: Accounts, vtx: seq<Tx>, ignore: nat, refused: set<Tx>, i: nat): Errno
    requires i < |vtx|
  {
    var tx, earlier := vtx[i], vtx[..i];
    if tx.kind.VoteRewardTx? != (i < ignore) then TransactionInvalid
    else if i < ignore || tx.from == 0 then OK
    else if Look(store, tx.from).balance + Received(earlier, tx.from)
        < Sent(earlier, ignore, tx.from) + tx.amount + tx.fee then InputInvalid
    else if !tx.kind.CertTx?
        && tx.nonce != (Look(store, tx.from).nonce + Consumed(earlier, ignore, tx.from) + 1) % 0x1_00000000_00000000
        then MissingPrev
    else if tx in refused then OtherCheck
    else OK
  }

  /** The kind fits the position, the sender can pay, the nonce is the next one, nothing else is wrong. */
  ghost predicate Admissible(store: Accounts, vtx: seq<Tx>, ignore: nat, refused: set<Tx>, i: nat)
    requires i < |vtx|
  {
    var tx, earlier := vtx[i], vtx[..i];
    && (tx.kind.VoteRewardTx? <==> i < ignore)
    && (i >= ignore && tx.from != 0 ==>
          && Look(store, tx.from).balance + Received(earlier, tx.from)
             >= Sent(earlier, ignore, tx.from) + tx.amount + tx.fee
          && tx !in refused)
    && (i >= ignore && tx.from != 0 && !tx.kind.CertTx? ==>
          tx.nonce == (Look(store, tx.from).nonce + Consumed(earlier, ignore, tx.from) + 1) % 0x1_00000000_00000000)
  }

  ghost predicate AllAdmissible(store: Accounts, vtx: seq<Tx>, ignore: nat, refused: set<Tx>) {
    forall i :: 0 <= i < |vtx| ==> Admissible(store, vtx, ignore, refused, i)
  }

  lemma NextMod(a: nat, b: nat)
    requires a % NONCES == b % NONCES
    ensures NextNonce(a) == NextNonce(b)
  {
  }

  lemma NextModTwice(a: nat)
    ensures NextNonce(a) % NONCES == (a + 1) % NONCES
  {
  }

  /** The running nonce, whatever the range. */
  lemma {:induction false} RunNonceMod(store: Accounts, vtx: seq<Tx>, ignore: nat, refused: set<Tx>, d: Dest)
    requires Run(store, vtx, ignore, refused).Done?
    ensures AccountOf(store, Run(store, vtx, ignore, refused).states, d).nonce % NONCES
            == (Look(store, d).nonce + Consumed(vtx, ignore, d)) % NONCES
  {
    if vtx != [] {
      var n := |vtx| - 1;
      RunNonceMod(store, vtx[..n], ignore, refused, d);
      var states := Run(store, vtx[..n], ignore, refused).states;
      ApplyNonce(store, states, vtx[n], n < ignore, refused, d);
      NextMod(AccountOf(store, states, d).nonce, Look(store, d).nonce + Consumed(vtx[..n], ignore, d));
      NextModTwice(AccountOf(store, states, d).nonce);
    }
  }

  /** The next transaction fails exactly with its complaint. */
  lemma ApplyComplains(store: Accounts, vtx: seq<Tx>, ignore: nat, refused: set<Tx>, i: nat)
    requires i < |vtx| && Run(store, vtx[..i], ignore, refused).Done? && InRange(vtx)
    requires Money(store) + Issued(vtx[..i], ignore) < WORD
    ensures var r := Apply(store, Run(store, vtx[..i], ignore, refused).states, vtx[i], i < ignore, refused);
            if Complaint(store, vtx, ignore, refused, i) == OK then r.Done?
            else r == Failed(Complaint(store, vtx, ignore, refused, i))
  {
    var tx, states := vtx[i], Run(store, vtx[..i], ignore, refused).states;
    RunBalance(store, vtx[..i], ignore, refused, tx.from);
    RunNonceMod(store, vtx[..i], ignore, refused, tx.from);
    NextMod(AccountOf(store, states, tx.from).nonce, Look(store, tx.from).nonce + Consumed(vtx[..i], ignore, tx.from));
    assert AccountOf(store, Load(store, states, tx.from), tx.from) == AccountOf(store, states, tx.from);
  }

  lemma {:induction false} IssuedGrows(vtx: seq<Tx>, ignore: nat, i: nat)
    requires i <= |vtx|
    ensures Issued(vtx[..i], ignore) <= Issued(vtx, ignore)
    decreases |vtx|
  {
    if i == |vtx| {
      assert vtx[..i] == vtx;
    } else {
      assert vtx[..|vtx|-1][..i] == vtx[..i];
      IssuedGrows(vtx[..|vtx|-1], ignore, i);
    }
  }

  /** A run of admissible transactions goes through. */
  lemma {:induction false} PrefixAdmissible(store: Accounts, vtx: seq<Tx>, ignore: nat, refused: set<Tx>, i: nat)
    requires InRange(vtx) && Money(store) + Issued(vtx, ignore) < WORD && i <= |vtx|
    requires forall j :: 0 <= j < i ==> Admissible(store, vtx, ignore, refused, j)
    ensures Run(store, vtx[..i], ignore, refused).Done?
  {
    if i > 0 {
      PrefixAdmissible(store, vtx, ignore, refused, i - 1);
      assert vtx[..i][..i-1] == vtx[..i-1];
      IssuedGrows(vtx, ignore, i - 1);
      assert Admissible(store, vtx, ignore, refused, i - 1);
      assert Complaint(store, vtx, ignore, refused, i - 1) == OK;
      ApplyComplains(store, vtx, ignore, refused, i - 1);
    }
  }

  /** The first transaction that is not admissible decides the error. */
  lemma FirstComplaint(store: Accounts, vtx: seq<Tx>, ignore: nat, refused: set<Tx>, i: nat)
    requires InRange(vtx) && Money(store) + Issued(vtx, ignore) < WORD && i < |vtx|
    requires forall j :: 0 <= j < i ==> Admissible(store, vtx, ignore, refused, j)
    requires !Admissible(store, vtx, ignore, refused, i)
    ensures Run(store, vtx, ignore, refused) == Failed(Complaint(store, vtx, ignore, refused, i))
    ensures Complaint(store, vtx, ignore, refused, i) != OK
  {
    PrefixAdmissible(store, vtx, ignore, refused, i);
    IssuedGrows(vtx, ignore, i);
    ApplyComplains(store, vtx, ignore, refused, i);
    assert vtx[..i+1][..i] == vtx[..i];
    FailureStays(store, vtx, ignore, refused, i + 1);
  }

  lemma {:induction false} FindComplaint(store: Accounts, vtx: seq<Tx>, ignore: nat, refused: set<Tx>, n: nat)
      returns (i: nat)
    requires n < |vtx| && !Admissible(store, vtx, ignore, refused, n)
    ensures i <= n && !Admissible(store, vtx, ignore, refused, i)
    ensures forall j :: 0 <= j < i ==> Admissible(store, vtx, ignore, refused, j)
  {
    if j :| 0 <= j < n && !Admissible(store, vtx, ignore, refused, j) {
      i := FindComplaint(store, vtx, ignore, refused, j);
    } else {
      i := n;
    }
  }

  /** A block's transactions are all accepted exactly when each is admissible. */
  lemma RunDoneIff(store: Accounts, vtx: seq<Tx>, ignore: nat, refused: set<Tx>)
    requires InRange(vtx) && Money(store) + Issued(vtx, ignore) < WORD
    ensures Run(store, vtx, ignore, refused).Done? <==> AllAdmissible(store, vtx, ignore, refused)
  {
    if n :| 0 <= n < |vtx| && !Admissible(store, vtx, ignore, refused, n) {
      var i := FindComplaint(store, vtx, ignore, refused, n);
      FirstComplaint(store, vtx, ignore, refused, i);
    } else {
      PrefixAdmissible(store, vtx, ignore, refused, |vtx|);
      assert vtx[..|vtx|] == vtx;
    }
  }

  ghost function FeeTotal(vtx: seq<Tx>): nat {
    if vtx == [] then 0 else FeeTotal(vtx[..|vtx|-1]) + vtx[|vtx|-1].fee
  }

  lemma {:induction false} FeesExact(vtx: seq<Tx>)
    requires FeeTotal(vtx) < WORD
    ensures Fees(vtx) == FeeTotal(vtx)
  {
    if vtx != [] {
      FeesExact(vtx[..|vtx|-1]);
    }
  }

  /** No sum of the block leaves the 256-bit range. */
  ghost predicate NoOverflow(store: Accounts, vtx: seq<Tx>, ignore: nat, reward: nat) {
    InRange(vtx) && Money(store) + Issued(vtx, ignore) < WORD && FeeTotal(vtx) + reward < WORD
  }

  /** The verdict in full: a block passes exactly when each of its transactions is admissible and its
      mint is at most the fees and the block reward. */
  lemma VerdictIff(store: Accounts, vtx: seq<Tx>, ignore: nat, refused: set<Tx>, mint: nat, reward: nat)
    requires NoOverflow(store, vtx, ignore, reward)
    ensures Verdict(store, vtx, ignore, refused, mint, reward) == OK <==>
              AllAdmissible(store, vtx, ignore, refused) && mint <= FeeTotal(vtx) + reward
  {
    RunDoneIff(store, vtx, ignore, refused);
    AcceptedIff(store, vtx, ignore, refused, mint, reward);
    FeesExact(vtx);
  }

  // ---------------------------------------------------------------- blocks and chains

  datatype Block = Block(vtx: seq<Tx>, ignore: nat, mintTo: Dest, mint: nat, reward: nat)

  /** Ordinary transactions name a sender, vote rewards carry no fee, and nothing wraps around. */
  ghost predicate Regular(b: Block) {
    && InRange(b.vtx)
    && forall i :: 0 <= i < |b.vtx| ==> if i < b.ignore then b.vtx[i].fee == 0 else b.vtx[i].from != 0
  }

  ghost function Prefix(b: Block): seq<Tx> {
    if b.ignore <= |b.vtx| then b.vtx[..b.ignore] else b.vtx
  }

  /** The ledger after a block that is accepted: its states, and the mint transaction. */
  ghost function After(store: Accounts, b: Block, refused: set<Tx>): Option<Accounts> {
    if Verdict(store, b.vtx, b.ignore, refused, b.mint, b.reward) != OK then None
    else
      AcceptedIff(store, b.vtx, b.ignore, refused, b.mint, b.reward);
      Some(Merged(store, Receive(store, Run(store, b.vtx, b.ignore, refused).states, b.mintTo, b.mint)))
  }

  lemma {:induction false} RegularIssues(vtx: seq<Tx>, ignore: nat)
    requires forall i :: 0 <= i < |vtx| ==> if i < ignore then vtx[i].fee == 0 else vtx[i].from != 0
    ensures Issued(vtx, ignore) == TxTotal(if ignore <= |vtx| then vtx[..ignore] else vtx)
    ensures FeesPaid(vtx, ignore) < WORD ==> Fees(vtx) == FeesPaid(vtx, ignore)
  {
    if vtx != [] {
      var n := |vtx| - 1;
      RegularIssues(vtx[..n], ignore);
      if ignore <= n {
        assert vtx[..n][..ignore] == vtx[..ignore];
      } else {
        assert (if ignore <= |vtx| then vtx[..ignore] else vtx) == vtx;
      }
    }
  }

  /** A block adds at most its vote rewards and its block reward to the money. */
  lemma BlockMoney(store: Accounts, b: Block, refused: set<Tx>)
    requires Regular(b) && After(store, b, refused).Some?
    requires Money(store) + TxTotal(Prefix(b)) + b.reward < WORD
    ensures Money(After(store, b, refused).value) <= Money(store) + TxTotal(Prefix(b)) + b.reward
  {
    AcceptedIff(store, b.vtx, b.ignore, refused, b.mint, b.reward);
    RegularIssues(b.vtx, b.ignore);
    RunMoney(store, b.vtx, b.ignore, refused);
    var states := Run(store, b.vtx, b.ignore, refused).states;
    SubExact(Fees(b.vtx), Fees(b.vtx));
    assert Add(Fees(b.vtx), b.reward) <= Fees(b.vtx) + b.reward;
    ReceiveMoney(store, states, b.mintTo, b.mint);
  }

  /** Every balance after an accepted block: its start, plus what it received and the mint if it is the
      minter's, minus what it sent with fees. */
  lemma BlockBalance(store: Accounts, b: Block, refused: set<Tx>, d: Dest)
    requires Regular(b) && After(store, b, refused).Some?
    requires Money(store) + TxTotal(Prefix(b)) + b.reward < WORD
    ensures Look(After(store, b, refused).value, d).balance + Sent(b.vtx, b.ignore, d)
            == Look(store, d).balance + Received(b.vtx, d) + if d == b.mintTo then b.mint else 0
  {
    AcceptedIff(store, b.vtx, b.ignore, refused, b.mint, b.reward);
    RegularIssues(b.vtx, b.ignore);
    RunMoney(store, b.vtx, b.ignore, refused);
    RunBalance(store, b.vtx, b.ignore, refused, d);
    var states := Run(store, b.vtx, b.ignore, refused).states;
    BalanceAtMost(store, states, b.mintTo);
    assert Add(Fees(b.vtx), b.reward) <= Fees(b.vtx) + b.reward;
    ReceiveBalance(store, states, b.mintTo, b.mint, d);
    MergedSet(store, Receive(store, states, b.mintTo, b.mint), d, Account(0, 0));
  }

  ghost function AfterAll(store: Accounts, blocks: seq<Block>, refused: set<Tx>): Option<Accounts> {
    if blocks == [] then Some(store)
    else
      match AfterAll(store, blocks[..|blocks|-1], refused)
      case None => None
      case Some(m) => After(m, blocks[|blocks|-1], refused)
  }

  ghost function Granted(blocks: seq<Block>): nat {
    if blocks == [] then 0
    else Granted(blocks[..|blocks|-1]) + TxTotal(Prefix(blocks[|blocks|-1])) + blocks[|blocks|-1].reward
  }

  /** Over any accepted chain the money grows by at most the vote rewards and block rewards. */
  lemma {:induction false} ChainMoney(store: Accounts, blocks: seq<Block>, refused: set<Tx>)
    requires AfterAll(store, blocks, refused).Some? && (forall i :: 0 <= i < |blocks| ==> Regular(blocks[i]))
    requires Money(store) + Granted(blocks) < WORD
    ensures Money(AfterAll(store, blocks, refused).value) <= Money(store) + Granted(blocks)
  {
    if blocks != [] {
      var n := |blocks| - 1;
      ChainMoney(store, blocks[..n], refused);
      BlockMoney(AfterAll(store, blocks[..n], refused).value, blocks[n], refused);
    }
  }

  lemma AfterNonce(store: Accounts, b: Block, refused: set<Tx>, d: Dest)
    requires After(store, b, refused).Some? && Look(store, d).nonce + Consumed(b.vtx, b.ignore, d) < NONCES
    ensures Look(After(store, b, refused).value, d).nonce == Look(store, d).nonce + Consumed(b.vtx, b.ignore, d)
  {
    AcceptedIff(store, b.vtx, b.ignore, refused, b.mint, b.reward);
    RunNonce(store, b.vtx, b.ignore, refused, d);
    var states := Run(store, b.vtx, b.ignore, refused).states;
    var states' := Receive(store, states, b.mintTo, b.mint);
    assert AccountOf(store, states', d).nonce == AccountOf(store, states, d).nonce;
  }

  ghost function ConsumedIn(blocks: seq<Block>, d: Dest): nat {
    if blocks == [] then 0
    else ConsumedIn(blocks[..|blocks|-1], d) + Consumed(blocks[|blocks|-1].vtx, blocks[|blocks|-1].ignore, d)
  }

  /** Over any accepted chain a sender's nonce counts its transactions, so none can be replayed. */
  lemma {:induction false} ChainNonce(store: Accounts, blocks: seq<Block>, refused: set<Tx>, d: Dest)
    requires AfterAll(store, blocks, refused).Some? && Look(store, d).nonce + ConsumedIn(blocks, d) < NONCES
    ensures Look(AfterAll(store, blocks, refused).value, d).nonce == Look(store, d).nonce + ConsumedIn(blocks, d)
  {
    if blocks != [] {
      var n := |blocks| - 1;
      ChainNonce(store, blocks[..n], refused, d);
      AfterNonce(AfterAll(store, blocks[..n], refused).value, blocks[n], refused, d);
    }
  }

  /** Exactly the first `ignore` transactions of an accepted block are vote rewards. */
  lemma {:induction false} KindsSeparated(store: Accounts, vtx: seq<Tx>, ignore: nat, refused: set<Tx>)
    requires Run(store, vtx, ignore, refused).Done?
    ensures forall i :: 0 <= i < |vtx| ==> (vtx[i].kind.VoteRewardTx? <==> i < ignore)
  {
    if vtx != [] {
      KindsSeparated(store, vtx[..|vtx|-1], ignore, refused);
    }
  }
}
