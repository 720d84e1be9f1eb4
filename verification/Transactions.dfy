/** Transactions as far as rewards, balances and nonces need them. Two transactions are the same when
    they agree on these fields; the attached address data is not modelled. */
module Transactions {
  import opened Common

  datatype TxKind = VoteRewardTx | CertTx | OrdinaryTx

  /** Address 0 is the null address. */
  datatype Tx = Tx(kind: TxKind, from: Dest, to: Dest, amount: nat, fee: nat, nonce: nat)

  ghost function TxTotal(txs: seq<Tx>): nat {
    if txs == [] then 0 else TxTotal(txs[..|txs|-1]) + txs[|txs|-1].amount
  }

  lemma {:induction false} TxTotalAppend(a: seq<Tx>, b: seq<Tx>)
    ensures TxTotal(a + b) == TxTotal(a) + TxTotal(b)
    decreases |b|
  {
    if b == [] {
      assert a + b == a;
    } else {
      assert (a + b)[..|a + b| - 1] == a + b[..|b|-1];
      TxTotalAppend(a, b[..|b|-1]);
    }
  }
}
