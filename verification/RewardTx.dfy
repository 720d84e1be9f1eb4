/** CBlockChain::CalcEndVoteReward (src/blockchain/blockchain.cpp): the rewards of a period are regrouped
    by recipient, turned into transactions and cut into one list per block. */
module RewardTx {
  import opened Common
  import opened Transactions
  import opened VoteReward

  // ---------------------------------------------------------------- regrouping by recipient

  /** Where the three function addresses currently point. */
  datatype Redirect = Redirect(surplus: Option<Dest>, project: Option<Dest>, foundation: Option<Dest>)

  /** The amount due to a recipient, and whether it may be a plain public-key address. */
  datatype Payee = Payee(amount: nat, pubkey: bool)
  type Payees = map<Dest, Payee>

  predicate IsFunction(recipient: Dest, addr: Addresses) {
    recipient == addr.surplus || recipient == addr.project || recipient == addr.foundation
  }

  /** The address that is paid in the end. */
  function Target(recipient: Dest, addr: Addresses, to: Redirect): Option<Dest> {
    if recipient == addr.surplus then to.surplus
    else if recipient == addr.project then to.project
    else if recipient == addr.foundation then to.foundation
    else Some(recipient)
  }

  function DueTo(m: Payees, d: Dest): nat {
    if d in m then m[d].amount else 0
  }

  function Regroup(keys: seq<Dest>, r: Rewards, addr: Addresses, to: Redirect): Option<Payees>
    requires forall k :: k in keys ==> k in r
  {
    if keys == [] then Some(map[])
    else
      var k := keys[|keys|-1];
      var e := r[k];
      match Regroup(keys[..|keys|-1], r, addr, to)
      case None => None
      case Some(m) =>
        match Target(e.recipient, addr, to)
        case None => None
        case Some(d) => Some(m[d := Payee(Add(DueTo(m, d), e.amount), !IsFunction(e.recipient, addr) &&
            k != e.recipient)])
  }

  ghost function PayeeAmounts(m: Payees): map<Dest, nat> {
    map d | d in m :: m[d].amount
  }

  /** What the entries of `keys` direct to d. */
  ghost function Directed(keys: seq<Dest>, r: Rewards, addr: Addresses, to: Redirect, d: Dest): nat
    requires forall k :: k in keys ==> k in r
  {
    if keys == [] then 0
    else
      var k := keys[|keys|-1];
      Directed(keys[..|keys|-1], r, addr, to, d) + if Target(r[k].recipient, addr, to) == Some(d)
          then r[k].amount else 0
  }

  /** The recipient is a function address that points nowhere. */
  ghost predicate PointsNowhere(recipient: Dest, addr: Addresses, to: Redirect) {
    || (recipient == addr.surplus && to.surplus.None?)
    || (recipient == addr.project != addr.surplus && to.project.None?)
    || (recipient == addr.foundation && recipient != addr.surplus && recipient != addr.project && to.foundation.None?)
  }

  lemma PointsNowhereIff(recipient: Dest, addr: Addresses, to: Redirect)
    ensures PointsNowhere(recipient, addr, to) <==> Target(recipient, addr, to).None?
  {
  }

  /** Regrouping fails exactly when a needed function address is missing. */
  lemma {:induction false} RegroupFailsIff(keys: seq<Dest>, r: Rewards, addr: Addresses, to: Redirect)
    requires forall k :: k in keys ==> k in r
    ensures Regroup(keys, r, addr, to).None? <==> exists k :: k in keys && PointsNowhere(r[k].recipient, addr, to)
  {
    if keys != [] {
      var n := |keys| - 1;
      RegroupFailsIff(keys[..n], r, addr, to);
      PointsNowhereIff(r[keys[n]].recipient, addr, to);
      forall k ensures k in keys <==> k in keys[..n] || k == keys[n] {
      }
    }
  }

  lemma {:induction false} DirectedAtMost(keys: seq<Dest>, r: Rewards, addr: Addresses, to: Redirect, d: Dest)
    requires forall k :: k in keys ==> k in r
    ensures Directed(keys, r, addr, to, d) <= SumAlong(Amounts(r), keys)
  {
    if keys != [] {
      DirectedAtMost(keys[..|keys|-1], r, addr, to, d);
    }
  }

  /** A recipient gets exactly what is directed to it. */
  lemma {:induction false} RegroupExact(keys: seq<Dest>, r: Rewards, addr: Addresses, to: Redirect, d: Dest)
    requires (forall k :: k in keys ==> k in r) && Regroup(keys, r, addr, to).Some?
    requires SumAlong(Amounts(r), keys) < WORD
    ensures DueTo(Regroup(keys, r, addr, to).value, d) == Directed(keys, r, addr, to, d)
  {
    if keys != [] {
      RegroupExact(keys[..|keys|-1], r, addr, to, d);
      DirectedAtMost(keys, r, addr, to, d);
    }
  }

  /** What the entries pay to one recipient. */
  ghost function PaidTo(keys: seq<Dest>, r: Rewards, who: Dest): nat
    requires forall k :: k in keys ==> k in r
  {
    if keys == [] then 0
    else
      var k := keys[|keys|-1];
      PaidTo(keys[..|keys|-1], r, who) + if r[k].recipient == who then r[k].amount else 0
  }

  ghost predicate DistinctAddresses(addr: Addresses) {
    addr.surplus != addr.project && addr.surplus != addr.foundation && addr.project != addr.foundation
  }

  /** What d is owed: what is paid to it, unless it is a function address itself, and all that is paid to
      the function addresses that point to it. */
  ghost function Owed(keys: seq<Dest>, r: Rewards, addr: Addresses, to: Redirect, d: Dest): nat
    requires forall k :: k in keys ==> k in r
  {
    (if d in {addr.surplus, addr.project, addr.foundation} then 0 else PaidTo(keys, r, d))
    + (if to.surplus == Some(d) then PaidTo(keys, r, addr.surplus) else 0)
    + (if to.project == Some(d) then PaidTo(keys, r, addr.project) else 0)
    + (if to.foundation == Some(d) then PaidTo(keys, r, addr.foundation) else 0)
  }

  lemma {:induction false} DirectedIsOwed(keys: seq<Dest>, r: Rewards, addr: Addresses, to: Redirect, d: Dest)
    requires (forall k :: k in keys ==> k in r) && DistinctAddresses(addr)
    ensures Directed(keys, r, addr, to, d) == Owed(keys, r, addr, to, d)
  {
    if keys != [] {
      DirectedIsOwed(keys[..|keys|-1], r, addr, to, d);
    }
  }

  /** Whether a payee may be a plain public-key address is decided by the last entry that pays it: it may,
      unless that entry is its own or comes through a function address. */
  lemma {:induction false} RegroupFlag(keys: seq<Dest>, r: Rewards, addr: Addresses, to: Redirect, i: nat, d: Dest)
    requires (forall k :: k in keys ==> k in r) && Regroup(keys, r, addr, to).Some?
    requires i < |keys| && Target(r[keys[i]].recipient, addr, to) == Some(d)
    requires forall j :: i < j < |keys| ==> Target(r[keys[j]].recipient, addr, to) != Some(d)
    ensures var m, who := Regroup(keys, r, addr, to).value, r[keys[i]].recipient;
            d in m && (m[d].pubkey <==>
              who != keys[i] && who != addr.surplus && who != addr.project && who != addr.foundation)
  {
    var n := |keys| - 1;
    if i < n {
      RegroupFlag(keys[..n], r, addr, to, i, d);
    }
  }

  lemma PayeeUpdate(m: Payees, d: Dest, p: Payee)
    ensures Total(PayeeAmounts(m[d := p])) == Total(PayeeAmounts(m)) - DueTo(m, d) + p.amount
    ensures DueTo(m, d) <= Total(PayeeAmounts(m))
  {
    assert PayeeAmounts(m[d := p]) == PayeeAmounts(m)[d := p.amount];
    TotalUpdate(PayeeAmounts(m), d, p.amount);
    if d in m {
      TotalAtLeast(PayeeAmounts(m), d);
    }
  }

  /** Regrouping conserves. */
  lemma {:induction false} RegroupConserves(keys: seq<Dest>, r: Rewards, addr: Addresses, to: Redirect)
    requires (forall k :: k in keys ==> k in r) && Regroup(keys, r, addr, to).Some?
    requires SumAlong(Amounts(r), keys) < WORD
    ensures Total(PayeeAmounts(Regroup(keys, r, addr, to).value)) == SumAlong(Amounts(r), keys)
  {
    if keys == [] {
      assert PayeeAmounts(map[]) == map[];
    } else {
      var k := keys[|keys|-1];
      RegroupConserves(keys[..|keys|-1], r, addr, to);
      var m, d := Regroup(keys[..|keys|-1], r, addr, to).value, Target(r[k].recipient, addr, to).value;
      PayeeUpdate(m, d, Regroup(keys, r, addr, to).value[d]);
    }
  }

  // ---------------------------------------------------------------- the transactions

  const TWO32: nat := 0x1_0000_0000

  /** The nonce: calculation height above a 32-bit counter. */
  function NonceAt(height: nat, i: nat): nat {
    height * TWO32 + i % TWO32
  }

  function RewardAt(m: Payees, keys: seq<Dest>, height: nat, i: nat): Tx
    requires i < |keys| && keys[i] in m
  {
    Tx(VoteRewardTx, 0, keys[i], m[keys[i]].amount, 0, NonceAt(height, i))
  }

  function RewardTxs(m: Payees, keys: seq<Dest>, height: nat): seq<Tx>
    requires forall k :: k in keys ==> k in m
  {
    if keys == [] then []
    else RewardTxs(m, keys[..|keys|-1], height) + [RewardAt(m, keys, height, |keys|-1)]
  }

  lemma {:induction false} RewardTxsAt(m: Payees, keys: seq<Dest>, height: nat)
    requires forall k :: k in keys ==> k in m
    ensures |RewardTxs(m, keys, height)| == |keys|
    ensures forall i :: 0 <= i < |keys| ==> RewardTxs(m, keys, height)[i] == RewardAt(m, keys, height, i)
  {
    if keys != [] {
      RewardTxsAt(m, keys[..|keys|-1], height);
    }
  }

  lemma {:induction false} RewardTxsTotal(m: Payees, keys: seq<Dest>, height: nat)
    requires forall k :: k in keys ==> k in m
    ensures TxTotal(RewardTxs(m, keys, height)) == SumAlong(PayeeAmounts(m), keys)
  {
    if keys != [] {
      var init := keys[..|keys|-1];
      RewardTxsTotal(m, init, height);
      var txs := RewardTxs(m, keys, height);
      assert txs[..|txs|-1] == RewardTxs(m, init, height);
    }
  }

  /** Reward transactions in recipient order: recipients and nonces both increase strictly. */
  ghost predicate InOrder(txs: seq<Tx>) {
    forall i, j :: 0 <= i < j < |txs| ==> txs[i].to < txs[j].to && txs[i].nonce < txs[j].nonce
  }

  lemma RewardTxsInOrder(m: Payees, keys: seq<Dest>, height: nat)
    requires (forall k :: k in keys ==> k in m) && StrictlyAscending(keys) && |keys| <= TWO32
    ensures InOrder(RewardTxs(m, keys, height))
  {
    RewardTxsAt(m, keys, height);
    forall i | 0 <= i < |keys| ensures RewardTxs(m, keys, height)[i].nonce == height * TWO32 + i {
      assert RewardTxs(m, keys, height)[i] == RewardAt(m, keys, height, i);
    }
  }

  // ---------------------------------------------------------------- one list per block

  /** How many lists are needed. */
  function Count(n: nat, max: nat): nat
    requires max > 0
  {
    n / max + if n % max > 0 then 1 else 0
  }

  /** The list that takes the i-th transaction. */
  function ListOf(i: nat, max: nat): (slot: nat)
    requires max > 0
  {
    i / max
  }

  lemma DivStep(n: nat, max: nat)
    requires max > 0
    ensures (n + 1) / max == n / max + (if n % max + 1 == max then 1 else 0)
    ensures (n + 1) % max == if n % max + 1 == max then 0 else n % max + 1
  {
    var q, r := n / max, n % max;
    assert n + 1 == max * q + (r + 1);
    if r + 1 == max {
      assert n + 1 == max * (q + 1);
      DivUnique(n + 1, q + 1, 0, max);
    } else {
      DivUnique(n + 1, q, r + 1, max);
    }
  }

  /** Every index that is written is in range. */
  lemma {:induction false} SlotInRange(i: nat, n: nat, max: nat)
    requires max > 0 && i < n
    ensures i / max < Count(n, max)
    decreases n
  {
    DivStep(n - 1, max);
    if i < n - 1 {
      SlotInRange(i, n - 1, max);
    }
  }

  /** The lists after all transactions were appended, each to its list. */
  function Fill(txs: seq<Tx>, max: nat, count: nat): (list: seq<seq<Tx>>)
    requires max > 0
    requires forall i :: 0 <= i < |txs| ==> i / max < count
    ensures |list| == count
  {
    if txs == [] then seq(count, _ => [])
    else
      var n := |txs| - 1;
      var list := Fill(txs[..n], max, count);
      list[n / max := list[n / max] + [txs[n]]]
  }

  /** The first n / max lists are full and the next one holds the remaining n % max. */
  ghost predicate Filled(list: seq<seq<Tx>>, n: nat, max: nat)
    requires max > 0
  {
    forall j :: 0 <= j < |list| ==> |list[j]| == if j < n / max then max else if j == n / max then n % max else 0
  }

  lemma {:induction false} FillSizes(txs: seq<Tx>, max: nat, count: nat)
    requires max > 0 && forall i :: 0 <= i < |txs| ==> i / max < count
    ensures Filled(Fill(txs, max, count), |txs|, max)
  {
    if txs == [] {
      DivUnique(0, 0, 0, max);
    } else {
      var n := |txs| - 1;
      FillSizes(txs[..n], max, count);
      DivStep(n, max);
    }
  }

  function Concat(list: seq<seq<Tx>>): seq<Tx> {
    if list == [] then [] else Concat(list[..|list|-1]) + list[|list|-1]
  }

  lemma {:induction false} ConcatPush(list: seq<seq<Tx>>, q: nat, tx: Tx)
    requires q < |list| && forall j :: q < j < |list| ==> list[j] == []
    ensures Concat(list[q := list[q] + [tx]]) == Concat(list) + [tx]
    decreases |list|
  {
    var n := |list| - 1;
    if q == n {
      assert list[q := list[q] + [tx]][..n] == list[..n];
    } else {
      ConcatPush(list[..n], q, tx);
      assert list[q := list[q] + [tx]][..n] == list[..n][q := list[q] + [tx]];
    }
  }

  lemma {:induction false} ConcatEmpty(count: nat)
    ensures Concat(seq(count, _ => [])) == []
  {
    var s: seq<seq<Tx>> := seq(count, _ => []);
    if count > 0 {
      ConcatEmpty(count - 1);
      assert s[..count-1] == seq(count - 1, _ => []);
    }
  }

  /** The lists one after the other are the transactions in order. */
  lemma {:induction false} FillConcat(txs: seq<Tx>, max: nat, count: nat)
    requires max > 0 && forall i :: 0 <= i < |txs| ==> i / max < count
    ensures Concat(Fill(txs, max, count)) == txs
  {
    if txs == [] {
      ConcatEmpty(count);
    } else {
      var n := |txs| - 1;
      FillConcat(txs[..n], max, count);
      FillSizes(txs[..n], max, count);
      ConcatPush(Fill(txs[..n], max, count), n / max, txs[n]);
    }
  }

  lemma AllInRange(n: nat, max: nat)
    requires max > 0
    ensures forall i :: 0 <= i < n ==> i / max < Count(n, max)
  {
    forall i | 0 <= i < n ensures i / max < Count(n, max) {
      SlotInRange(i, n, max);
    }
  }

  function Chunks(txs: seq<Tx>, max: nat): seq<seq<Tx>>
    requires max > 0
  {
    AllInRange(|txs|, max);
    Fill(txs, max, Count(|txs|, max))
  }

  /** Every list but the last is exactly full, the last is neither empty nor overfull, and together
      they are the transactions in order. */
  lemma ChunksExact(txs: seq<Tx>, max: nat)
    requires max > 0
    ensures var list := Chunks(txs, max);
            Concat(list) == txs && WellCut(list, max)
  {
    AllInRange(|txs|, max);
    FillSizes(txs, max, Count(|txs|, max));
    FillConcat(txs, max, Count(|txs|, max));
  }

  // ---------------------------------------------------------------- the whole calculation

  /** What the calculation looks up: the function addresses and their targets, whether the fork is
      known, and the largest number of reward transactions in a block. */
  datatype RewardEnv = RewardEnv(addr: Addresses, to: Redirect, forkKnown: bool, max: nat)

  /** A recipient that must have an address context has none. */
  predicate Unknown(m: Payees, contexts: set<Dest>) {
    exists d :: d in m && !m[d].pubkey && d !in contexts
  }

  function Lists(m: Payees, height: nat, max: nat): seq<seq<Tx>>
    requires max > 0
  {
    Chunks(RewardTxs(m, Ascending(m.Keys), height), max)
  }

  function PayeesOf(r: Rewards, env: RewardEnv): Option<Payees> {
    Regroup(Ascending(r.Keys), r, env.addr, env.to)
  }

  function EndVoteReward(r: Rewards, env: RewardEnv, contexts: set<Dest>, height: nat): Option<seq<seq<Tx>>> {
    if !env.forkKnown then None
    else
      match PayeesOf(r, env)
      case None => None
      case Some(m) =>
        if m == map[] then Some([])
        else if env.max == 0 || Unknown(m, contexts) then None
        else Some(Lists(m, height, env.max))
  }

  /** Every list but the last is full, and the last is neither empty nor overfull. */
  ghost predicate WellCut(list: seq<seq<Tx>>, max: nat) {
    && (forall j :: 0 <= j < |list| - 1 ==> |list[j]| == max)
    && (list != [] ==> 0 < |list[|list|-1]| <= max)
  }

  lemma ListsSize(m: Payees, height: nat, max: nat)
    requires max > 0
    ensures |Lists(m, height, max)| == Count(|m|, max)
  {
    RewardTxsAt(m, Ascending(m.Keys), height);
  }

  lemma PayeesPaid(m: Payees, keys: seq<Dest>, height: nat, max: nat)
    requires max > 0 && StrictlyAscending(keys) && |keys| <= TWO32 && forall k :: k in keys <==> k in m
    ensures var list := Chunks(RewardTxs(m, keys, height), max);
            TxTotal(Concat(list)) == Total(PayeeAmounts(m)) && InOrder(Concat(list)) && WellCut(list, max)
  {
    RewardTxsTotal(m, keys, height);
    SumAlongIsTotal(PayeeAmounts(m), keys);
    RewardTxsInOrder(m, keys, height);
    ChunksExact(RewardTxs(m, keys, height), max);
  }

  /** The lists pay `sum` in all, in recipient and nonce order, and are cut evenly. */
  ghost predicate Pays(list: seq<seq<Tx>>, sum: nat, max: nat) {
    TxTotal(Concat(list)) == sum && InOrder(Concat(list)) && WellCut(list, max)
  }

  lemma ListsPay(m: Payees, height: nat, max: nat)
    requires max > 0 && |m| <= TWO32
    ensures Pays(Lists(m, height, max), Total(PayeeAmounts(m)), max)
  {
    PayeesPaid(m, Ascending(m.Keys), height, max);
  }

  lemma NothingPaysNothing(max: nat)
    ensures Pays([], Total(PayeeAmounts(map[])), max)
  {
    assert PayeeAmounts(map[]) == map[];
  }

  lemma RegroupTotal(r: Rewards, env: RewardEnv)
    requires PayeesOf(r, env).Some? && Sum(r) < WORD
    ensures Total(PayeeAmounts(PayeesOf(r, env).value)) == Sum(r)
  {
    SumAlongIsTotal(Amounts(r), Ascending(r.Keys));
    RegroupConserves(Ascending(r.Keys), r, env.addr, env.to);
  }

  /** Regroup and chunk: the lists hold transactions with strictly increasing recipients and nonces
      whose amounts sum to the rewards, and every list but the last is full. */
  lemma EndVoteRewardExact(r: Rewards, env: RewardEnv, contexts: set<Dest>, height: nat)
    requires EndVoteReward(r, env, contexts, height).Some? && Sum(r) < WORD
    requires |PayeesOf(r, env).value| <= TWO32
    ensures Pays(EndVoteReward(r, env, contexts, height).value, Sum(r), env.max)
  {
    var m := PayeesOf(r, env).value;
    RegroupTotal(r, env);
    if m == map[] {
      NothingPaysNothing(env.max);
    } else {
      ListsPay(m, height, env.max);
    }
  }

  lemma NobodyOwed(keys: seq<Dest>, r: Rewards, addr: Addresses, to: Redirect)
    requires (forall k :: k in keys ==> k in r) && Regroup(keys, r, addr, to).Some?
    ensures Regroup(keys, r, addr, to).value == map[] <==> keys == []
  {
    if keys != [] {
      assert Target(r[keys[|keys|-1]].recipient, addr, to).value in Regroup(keys, r, addr, to).value;
    }
  }

  ghost predicate NoneMissing(r: Rewards, env: RewardEnv) {
    forall k :: k in r ==> !PointsNowhere(r[k].recipient, env.addr, env.to)
  }

  /** The payees are known unless a needed function address is missing. */
  lemma PayeesOfIff(r: Rewards, env: RewardEnv)
    ensures PayeesOf(r, env).Some? <==> NoneMissing(r, env)
    ensures PayeesOf(r, env).Some? ==> (PayeesOf(r, env).value == map[] <==> r == map[])
  {
    var keys := Ascending(r.Keys);
    RegroupFailsIff(keys, r, env.addr, env.to);
    assert |keys| == |r.Keys|;
    if PayeesOf(r, env).Some? {
      NobodyOwed(keys, r, env.addr, env.to);
    }
  }

  /** Every payee may be a plain public-key address or has an address context. */
  ghost predicate AllKnown(m: Payees, contexts: set<Dest>) {
    forall d :: d in m ==> m[d].pubkey || d in contexts
  }

  lemma UnknownIff(m: Payees, contexts: set<Dest>)
    ensures Unknown(m, contexts) <==> !AllKnown(m, contexts)
  {
  }

  /** The lists can be computed exactly when the fork is known, no needed function address is missing and,
      unless there is nothing to pay, a block may carry rewards at all and every payee that needs an
      address context has one. */
  lemma EndVoteRewardIff(r: Rewards, env: RewardEnv, contexts: set<Dest>, height: nat)
    ensures EndVoteReward(r, env, contexts, height).Some? <==>
              && env.forkKnown && NoneMissing(r, env)
              && (r == map[] ||
                  (&& env.max > 0 && PayeesOf(r, env).Some?
                   && AllKnown(PayeesOf(r, env).value, contexts)))
  {
    PayeesOfIff(r, env);
    if PayeesOf(r, env).Some? {
      UnknownIff(PayeesOf(r, env).value, contexts);
    }
  }

  /** Every reward transaction in full: it pays its recipient all it is owed, from nobody, free of charge,
      with its place in the order as the nonce. */
  ghost predicate PaysInFull(tx: Tx, i: nat, r: Rewards, env: RewardEnv, height: nat) {
    && tx.kind.VoteRewardTx? && tx.from == 0 && tx.fee == 0
    && tx.amount == Owed(Ascending(r.Keys), r, env.addr, env.to, tx.to)
    && (i < 0x1_0000_0000 ==> tx.nonce == height * 0x1_0000_0000 + i)
  }

  /** A payee's amount is what it is owed. */
  lemma PayeeOwed(r: Rewards, env: RewardEnv, d: Dest)
    requires PayeesOf(r, env).Some? && Sum(r) < WORD && DistinctAddresses(env.addr)
    ensures DueTo(PayeesOf(r, env).value, d) == Owed(Ascending(r.Keys), r, env.addr, env.to, d)
  {
    SumAlongIsTotal(Amounts(r), Ascending(r.Keys));
    RegroupExact(Ascending(r.Keys), r, env.addr, env.to, d);
    DirectedIsOwed(Ascending(r.Keys), r, env.addr, env.to, d);
  }

  lemma NonceInOrder(height: nat, i: nat)
    requires i < 0x1_0000_0000
    ensures NonceAt(height, i) == height * 0x1_0000_0000 + i
  {
  }

  lemma RewardInFull(r: Rewards, env: RewardEnv, height: nat, keys: seq<Dest>, i: nat)
    requires PayeesOf(r, env).Some? && Sum(r) < WORD && DistinctAddresses(env.addr)
    requires i < |keys| && keys[i] in PayeesOf(r, env).value
    ensures PaysInFull(RewardAt(PayeesOf(r, env).value, keys, height, i), i, r, env, height)
  {
    PayeeOwed(r, env, keys[i]);
    if i < 0x1_0000_0000 {
      NonceInOrder(height, i);
    }
  }

  /** The transactions, list after list, are one for each payee in key order. */
  lemma EndVoteRewardTxs(r: Rewards, env: RewardEnv, contexts: set<Dest>, height: nat)
    requires EndVoteReward(r, env, contexts, height).Some?
    ensures var txs, m := Concat(EndVoteReward(r, env, contexts, height).value), PayeesOf(r, env).value;
            var keys := Ascending(m.Keys);
            |txs| == |keys| && forall i :: 0 <= i < |keys| ==> txs[i] == RewardAt(m, keys, height, i)
  {
    var m := PayeesOf(r, env).value;
    var keys := Ascending(m.Keys);
    if m != map[] {
      ChunksExact(RewardTxs(m, keys, height), env.max);
      RewardTxsAt(m, keys, height);
    } else {
      assert |keys| == |m.Keys|;
    }
  }

  /** All of them: whoever is owed anything has its transaction. */
  lemma EndVoteRewardPays(r: Rewards, env: RewardEnv, contexts: set<Dest>, height: nat)
    requires EndVoteReward(r, env, contexts, height).Some? && Sum(r) < WORD && DistinctAddresses(env.addr)
    ensures var txs := Concat(EndVoteReward(r, env, contexts, height).value);
            && (forall i :: 0 <= i < |txs| ==> PaysInFull(txs[i], i, r, env, height))
            && (forall d :: Owed(Ascending(r.Keys), r, env.addr, env.to, d) > 0 ==> PaidBy(txs, d))
  {
    var keys := Ascending(PayeesOf(r, env).value.Keys);
    var txs := Concat(EndVoteReward(r, env, contexts, height).value);
    EndVoteRewardTxs(r, env, contexts, height);
    forall i | 0 <= i < |txs| ensures PaysInFull(txs[i], i, r, env, height) {
      RewardInFull(r, env, height, keys, i);
    }
    forall d | Owed(Ascending(r.Keys), r, env.addr, env.to, d) > 0 ensures PaidBy(txs, d) {
      PayeeOwed(r, env, d);
      var i :| 0 <= i < |keys| && keys[i] == d;
      assert txs[i].to == d;
    }
  }

  ghost predicate PaidBy(txs: seq<Tx>, d: Dest) {
    exists i :: 0 <= i < |txs| && txs[i].to == d
  }

  // ---------------------------------------------------------------- the loops

  method RegroupRewards(keys: seq<Dest>, r: Rewards, addr: Addresses, to: Redirect) returns (result: Option<Payees>)
    requires forall k :: k in keys ==> k in r
    ensures result == Regroup(keys, r, addr, to)
  {
    var m: Payees := map[];
    var i := 0;
    while i < |keys|
      invariant 0 <= i <= |keys|
      invariant Regroup(keys[..i], r, addr, to) == Some(m)
    {
      assert keys[..i+1][..i] == keys[..i];
      var e := r[keys[i]];
      var d := Target(e.recipient, addr, to);
      if d.None? {
        FailureStays(keys, r, addr, to, i + 1);
        return None;
      }
      m := m[d.value := Payee(Add(DueTo(m, d.value), e.amount), !IsFunction(e.recipient, addr) &&
          keys[i] != e.recipient)];
      i := i + 1;
    }
    assert keys[..i] == keys;
    return Some(m);
  }

  lemma {:induction false} FailureStays(keys: seq<Dest>, r: Rewards, addr: Addresses, to: Redirect, i: nat)
    requires (forall k :: k in keys ==> k in r) && i <= |keys| && Regroup(keys[..i], r, addr, to).None?
    ensures Regroup(keys, r, addr, to).None?
    decreases |keys|
  {
    if i == |keys| {
      assert keys[..i] == keys;
    } else {
      assert keys[..|keys|-1][..i] == keys[..i];
      FailureStays(keys[..|keys|-1], r, addr, to, i);
    }
  }

  method MakeLists(m: Payees, keys: seq<Dest>, contexts: set<Dest>, height: nat, max: nat)
      returns (list: Option<seq<seq<Tx>>>)
    requires max > 0 && forall k :: k in keys <==> k in m
    ensures list == if Unknown(m, contexts) then None else Some(Chunks(RewardTxs(m, keys, height), max))
  {
    var count := Count(|keys|, max);
    ghost var txs := RewardTxs(m, keys, height);
    RewardTxsAt(m, keys, height);
    AllInRange(|keys|, max);
    var filled: seq<seq<Tx>> := seq(count, _ => []);
    var i := 0;
    while i < |keys|
      invariant 0 <= i <= |keys|
      invariant filled == Fill(txs[..i], max, count)
      invariant KnownUpTo(m, keys, contexts, i)
    {
      if !m[keys[i]].pubkey && keys[i] !in contexts {
        return None;
      }
      FillStep(txs, max, count, i);
      var slot := ListOf(i, max);
      filled := filled[slot := filled[slot] + [RewardAt(m, keys, height, i)]];
      i := i + 1;
    }
    NothingUnknown(m, keys, contexts);
    assert txs[..i] == txs;
    return Some(filled);
  }

  /** The first i recipients have the address context they need. */
  ghost predicate KnownUpTo(m: Payees, keys: seq<Dest>, contexts: set<Dest>, i: nat)
    requires i <= |keys| && forall k :: k in keys ==> k in m
  {
    forall j :: 0 <= j < i ==> m[keys[j]].pubkey || keys[j] in contexts
  }

  lemma NothingUnknown(m: Payees, keys: seq<Dest>, contexts: set<Dest>)
    requires (forall k :: k in keys <==> k in m) && KnownUpTo(m, keys, contexts, |keys|)
    ensures !Unknown(m, contexts)
  {
    forall d | d in m ensures m[d].pubkey || d in contexts {
      var j :| 0 <= j < |keys| && keys[j] == d;
    }
  }

  lemma FillStep(txs: seq<Tx>, max: nat, count: nat, i: nat)
    requires max > 0 && i < |txs| && forall j :: 0 <= j < |txs| ==> j / max < count
    ensures var list := Fill(txs[..i], max, count);
            i / max < |list| && Fill(txs[..i+1], max, count) == list[i / max := list[i / max] + [txs[i]]]
  {
    assert txs[..i+1][..i] == txs[..i];
  }

  method CalcEndVoteReward(r: Rewards, env: RewardEnv, contexts: set<Dest>, height: nat)
      returns (list: Option<seq<seq<Tx>>>)
    ensures list == EndVoteReward(r, env, contexts, height)
  {
    if !env.forkKnown {
      return None;
    }
    var m := RegroupRewards(Ascending(r.Keys), r, env.addr, env.to);
    if m.None? {
      return None;
    }
    if m.value == map[] {
      return Some([]);
    }
    if env.max == 0 {
      return None;
    }
    list := MakeLists(m.value, Ascending(m.value.Keys), contexts, height, env.max);
  }
}
