/** CNetChannel::AddNewTx (src/blockchain/netchn.cpp): the worklist that hands a received transaction to
    the pool and then the received transactions its sender can follow up with. */
module TxChannel {
  import opened Common
  import opened Orphan
  import opened Inventory
  import opened Schedule

  const MAX_CERTTX_DELAYED_TIME := 180

  /** What the pool and the dispatcher answer for a transaction: an earlier nonce is missing, the nonce
      is taken already, it is added, it is dropped (missing input, conflict or known), or it is kept for
      later. */
  datatype TxFate = NonceMissing | Exists | Added | Discarded | Delayed

  // ---------------------------------------------------------------- what the worklist keeps

  type Filing = map<(Dest, nat), Hash>

  /** Only transaction states change: some go, none comes, and no object is replaced. */
  ghost predicate TxOnly(ss: States, ss': States) {
    && ss'.Keys <= ss.Keys
    && (forall inv :: inv in ss && inv.kind.BlockKind? ==> inv in ss' && ss'[inv] == ss[inv])
    && (forall inv :: inv in ss' ==> ss'[inv].received == ss[inv].received)
  }

  ghost predicate Subfiled(recv: Filing, recv': Filing) {
    forall k :: k in recv' ==> k in recv && recv'[k] == recv[k]
  }

  /** next is filed under the sender of h and the nonce after that of h. */
  ghost predicate FollowsUp(ss: States, recv: Filing, h: Hash, next: Hash) {
    && HasTx(ss, h) && ss[Inv(TxKind, h)].received.value.TxObject? && next != 0
    && var t := ss[Inv(TxKind, h)].received.value; NextTx(recv, t.from, t.nonce + 1) == next
  }

  /** The i-th entry follows up an earlier one that the pool has or takes. */
  ghost predicate LedTo(ss: States, recv: Filing, judge: Hash -> TxFate, queue: seq<Hash>, i: nat)
    requires i < |queue|
  {
    exists j :: 0 <= j < i && judge(queue[j]) in {Exists, Added} && FollowsUp(ss, recv, queue[j], queue[i])
  }

  /** Every entry but the first does. */
  ghost predicate NonceOrder(ss: States, recv: Filing, judge: Hash -> TxFate, queue: seq<Hash>) {
    forall i :: 0 < i < |queue| ==> LedTo(ss, recv, judge, queue, i)
  }

  /** What has been worked off is gone, or waits for an earlier nonce or a later time. */
  ghost predicate TxsDone(ss: States, judge: Hash -> TxFate, done: seq<Hash>) {
    forall h :: h in done && HasTx(ss, h) ==> judge(h) in {NonceMissing, Delayed}
  }

  /** The added transactions were received, are added once, and are gone. */
  ghost predicate AddedOnce(ss: States, ss': States, judge: Hash -> TxFate, added: seq<Hash>) {
    && NoDup(added)
    && forall h :: h in added ==> HasTx(ss, h) && judge(h) == Added && Inv(TxKind, h) !in ss'
  }

  /** Whatever received transaction has gone was worked off, with a verdict that lets go of it, and was
      added if that was the verdict. Its follow-up, if one is still filed, was queued. */
  ghost predicate TxTrace(ss: States, judge: Hash -> TxFate, ss': States, recv': Filing, queue: seq<Hash>, i: nat,
      added: seq<Hash>)
    requires i <= |queue|
  {
    forall h :: HasTx(ss, h) && !HasTx(ss', h) ==>
      && h in queue[..i] && judge(h) in {Exists, Added, Discarded} && (judge(h) == Added ==> h in added)
      && (judge(h) in {Exists, Added} ==> forall next :: FollowsUp(ss, recv', h, next) ==> next in queue)
  }

  ghost predicate TxWork(ss: States, recv: Filing, judge: Hash -> TxFate, ss': States, recv': Filing,
                         queue: seq<Hash>, i: nat, added: seq<Hash>) {
    && i <= |queue| && TxOnly(ss, ss') && Subfiled(recv, recv')
    && NonceOrder(ss, recv, judge, queue) && TxsDone(ss', judge, queue[..i]) && AddedOnce(ss, ss', judge, added)
    && TxTrace(ss, judge, ss', recv', queue, i, added)
  }

  lemma TxWorkStart(ss: States, recv: Filing, judge: Hash -> TxFate, txid: Hash)
    ensures TxWork(ss, recv, judge, ss, recv, [txid], 0, [])
  {
  }

  lemma TxsDoneStep(ss: States, ss': States, judge: Hash -> TxFate, queue: seq<Hash>, queue': seq<Hash>, i: nat)
    requires i < |queue| && queue <= queue' && TxsDone(ss, judge, queue[..i]) && TxOnly(ss, ss')
    requires HasTx(ss', queue[i]) ==> judge(queue[i]) in {NonceMissing, Delayed}
    ensures TxsDone(ss', judge, queue'[..i+1])
  {
    assert queue'[..i+1] == queue[..i] + [queue[i]];
  }

  lemma OrderGrows(ss: States, recv: Filing, judge: Hash -> TxFate, queue: seq<Hash>, i: nat, next: Hash)
    requires NonceOrder(ss, recv, judge, queue) && i < |queue|
    requires judge(queue[i]) in {Exists, Added} && FollowsUp(ss, recv, queue[i], next)
    ensures NonceOrder(ss, recv, judge, queue + [next])
  {
    var queue' := queue + [next];
    forall k | 0 < k < |queue'| ensures LedTo(ss, recv, judge, queue', k) {
      if k < |queue| {
        assert LedTo(ss, recv, judge, queue, k);
        var j :| 0 <= j < k && judge(queue[j]) in {Exists, Added} && FollowsUp(ss, recv, queue[j], queue[k]);
        assert queue'[j] == queue[j] && queue'[k] == queue[k];
      } else {
        assert queue'[i] == queue[i] && queue'[k] == next;
      }
    }
  }

  lemma TxOnlyTwice(ss: States, ss': States, ss'': States)
    requires TxOnly(ss, ss') && TxOnly(ss', ss'')
    ensures TxOnly(ss, ss'')
  {
  }

  lemma TraceKept(ss: States, judge: Hash -> TxFate, ss': States, recv': Filing, queue: seq<Hash>, i: nat,
      added: seq<Hash>, ss'': States)
    requires i < |queue| && TxTrace(ss, judge, ss', recv', queue, i, added)
    requires ss''.Keys == ss'.Keys && TxOnly(ss', ss'')
    ensures TxTrace(ss, judge, ss'', recv', queue, i + 1, added)
  {
    assert queue[..i+1] == queue[..i] + [queue[i]];
  }

  lemma TraceGone(ss: States, judge: Hash -> TxFate, ss': States, recv': Filing, queue: seq<Hash>, i: nat,
      added: seq<Hash>, next: Hash)
    requires i < |queue| && TxTrace(ss, judge, ss', recv', queue, i, added) && TxOnly(ss, ss') && HasTx(ss', queue[i])
    requires judge(queue[i]) in {Exists, Added, Discarded}
    requires judge(queue[i]) in {Exists, Added} ==>
               forall n :: FollowsUp(ss', recv', queue[i], n) ==> n == next
    ensures var inv := Inv(TxKind, queue[i]);
            TxTrace(ss, judge, ss' - {inv}, Unfiled(recv', ss', inv), if next != 0 then queue + [next] else queue,
              i + 1, if judge(queue[i]) == Added then added + [queue[i]] else added)
  {
    var inv, queue' := Inv(TxKind, queue[i]), if next != 0 then queue + [next] else queue;
    assert queue'[..i+1] == queue[..i] + [queue[i]];
    forall h, n | FollowsUp(ss, Unfiled(recv', ss', inv), h, n) ensures FollowsUp(ss, recv', h, n) {
    }
    assert forall n :: FollowsUp(ss, recv', queue[i], n) ==> FollowsUp(ss', recv', queue[i], n);
  }

  /** An entry that leaves its state, or only delays it. */
  lemma TxKept(ss: States, recv: Filing, judge: Hash -> TxFate, ss': States, recv': Filing, queue: seq<Hash>, i: nat,
               added: seq<Hash>, ss'': States)
    requires TxWork(ss, recv, judge, ss', recv', queue, i, added) && i < |queue| && TxOnly(ss', ss'')
    requires ss''.Keys == ss'.Keys
    requires HasTx(ss', queue[i]) ==> judge(queue[i]) in {NonceMissing, Delayed}
    ensures TxWork(ss, recv, judge, ss'', recv', queue, i + 1, added)
  {
    TxOnlyTwice(ss, ss', ss'');
    TxsDoneStep(ss', ss'', judge, queue, queue, i);
    TraceKept(ss, judge, ss', recv', queue, i, added, ss'');
  }

  /** An entry whose inventory goes. */
  lemma TxGone(ss: States, recv: Filing, judge: Hash -> TxFate, ss': States, recv': Filing, queue: seq<Hash>, i: nat,
               added: seq<Hash>, tx: Object, next: Hash)
    requires TxWork(ss, recv, judge, ss', recv', queue, i, added) && i < |queue| && HasTx(ss', queue[i])
    requires judge(queue[i]) in {Exists, Added, Discarded}
    requires tx == ss'[Inv(TxKind, queue[i])].received.value && tx.TxObject?
    requires next == if judge(queue[i]) in {Exists, Added} then NextTx(recv', tx.from, tx.nonce + 1) else 0
    ensures var inv := Inv(TxKind, queue[i]);
            TxWork(ss, recv, judge, ss' - {inv}, Unfiled(recv', ss', inv), if next != 0 then queue + [next] else queue,
                i + 1,
                   if judge(queue[i]) == Added then added + [queue[i]] else added)
  {
    var inv := Inv(TxKind, queue[i]);
    var queue' := if next != 0 then queue + [next] else queue;
    TxOnlyTwice(ss, ss', ss' - {inv});
    TxsDoneStep(ss', ss' - {inv}, judge, queue, queue', i);
    if next != 0 {
      OrderGrows(ss, recv, judge, queue, i, next);
    }
    TraceGone(ss, judge, ss', recv', queue, i, added, next);
  }

  // ---------------------------------------------------------------- the worklist

  /** Forgets a transaction; if the pool has it or takes it, the next nonce of its sender is looked up. */
  method PassOn(s: Scheduler, judge: Hash -> TxFate, hash: Hash, tx: Object) returns (next: Hash)
    requires s.Valid() && HasTx(s.states, hash) && tx == s.states[Inv(TxKind, hash)].received.value && tx.TxObject?
    modifies s`states, s`peers, s`missPrevTx, s`recvTx, s.orphanBlock, s.orphanTx
    ensures s.Valid() && s.orphanBlock.byPrev == old(s.orphanBlock.byPrev)
    ensures s.states == old(s.states) - {Inv(TxKind, hash)} && |s.states| < |old(s.states)|
    ensures s.recvTx == Unfiled(old(s.recvTx), old(s.states), Inv(TxKind, hash))
    ensures next == if judge(hash) in {Exists, Added} then NextTx(old(s.recvTx), tx.from, tx.nonce + 1) else 0
  {
    next := 0;
    if judge(hash) in {Exists, Added} {
      next := s.GetNextTx(tx.from, tx.nonce + 1);
    }
    var _, _ := s.RemoveInv(Inv(TxKind, hash));
  }

  /** Lets go of the i-th entry, and queues what follows it up. */
  method LetGo(s: Scheduler, judge: Hash -> TxFate, queue: seq<Hash>, i: nat, added: seq<Hash>, tx: Object,
               ghost ss: States, ghost recv: Filing)
    returns (queue': seq<Hash>, added': seq<Hash>)
    requires s.Valid() && i < |queue| && TxWork(ss, recv, judge, s.states, s.recvTx, queue, i, added)
    requires HasTx(s.states, queue[i]) && tx == s.states[Inv(TxKind, queue[i])].received.value && tx.TxObject?
    requires judge(queue[i]) in {Exists, Added, Discarded}
    modifies s`states, s`peers, s`missPrevTx, s`recvTx, s.orphanBlock, s.orphanTx
    ensures s.Valid() && TxWork(ss, recv, judge, s.states, s.recvTx, queue', i + 1, added')
    ensures s.orphanBlock.byPrev == old(s.orphanBlock.byPrev)
    ensures queue <= queue' && |s.states| < |old(s.states)|
  {
    ghost var ss', recv' := s.states, s.recvTx;
    var next := PassOn(s, judge, queue[i], tx);
    TxGone(ss, recv, judge, ss', recv', queue, i, added, tx, next);
    queue' := if next != 0 then queue + [next] else queue;
    added' := if judge(queue[i]) == Added then added + [queue[i]] else added;
  }

  /** Takes the i-th entry. */
  method TakeTx(s: Scheduler, judge: Hash -> TxFate, now: int, queue: seq<Hash>, i: nat, added: seq<Hash>,
                ghost ss: States, ghost recv: Filing)
    returns (queue': seq<Hash>, added': seq<Hash>)
    requires s.Valid() && i < |queue| && TxWork(ss, recv, judge, s.states, s.recvTx, queue, i, added)
    modifies s`states, s`peers, s`missPrevTx, s`recvTx, s.orphanBlock, s.orphanTx
    ensures s.Valid() && TxWork(ss, recv, judge, s.states, s.recvTx, queue', i + 1, added')
    ensures s.orphanBlock.byPrev == old(s.orphanBlock.byPrev)
    ensures queue <= queue' && (|s.states| < |old(s.states)| || (|s.states| == |old(s.states)| && queue' == queue))
  {
    queue', added' := queue, added;
    var hash := queue[i];
    var tx := s.GetTransaction(hash);
    if tx.None? || judge(hash).NonceMissing? {
      TxKept(ss, recv, judge, s.states, s.recvTx, queue, i, added, s.states);
    } else if judge(hash).Delayed? {
      ghost var ss' := s.states;
      var _ := s.SetDelayedClear(Inv(TxKind, hash), now + MAX_CERTTX_DELAYED_TIME);
      assert s.states.Keys == ss'.Keys;
      TxKept(ss, recv, judge, ss', s.recvTx, queue, i, added, s.states);
    } else {
      queue', added' := LetGo(s, judge, queue, i, added, tx.value, ss, recv);
    }
  }

  /** Hands a received transaction to the pool, and then in nonce order the received ones its sender can
      follow up with. The loop ends because each growth of the queue deletes a state. No transaction is
      added twice, and no block is touched. */
  method AddNewTx(s: Scheduler, txid: Hash, judge: Hash -> TxFate, now: int)
    returns (added: seq<Hash>, ghost queue: seq<Hash>)
    requires s.Valid()
    modifies s`states, s`peers, s`missPrevTx, s`recvTx, s.orphanBlock, s.orphanTx
    ensures s.Valid() && s.orphanBlock.byPrev == old(s.orphanBlock.byPrev)
    ensures [txid] <= queue && TxWork(old(s.states), old(s.recvTx), judge, s.states, s.recvTx, queue, |queue|, added)
  {
    ghost var ss, recv := s.states, s.recvTx;
    var q := [txid];
    added := [];
    TxWorkStart(ss, recv, judge, txid);
    var i := 0;
    while i < |q|
      invariant s.Valid() && s.orphanBlock.byPrev == old(s.orphanBlock.byPrev) && [txid] <= q
      invariant TxWork(ss, recv, judge, s.states, s.recvTx, q, i, added)
      decreases |s.states|, |q| - i
    {
      q, added := TakeTx(s, judge, now, q, i, added, ss, recv);
      i := i + 1;
    }
    queue := q;
  }

  /** What the sender of a transaction can follow up with has been handed on, or waits for an earlier
      nonce or a later time. */
  ghost predicate Followed(ss: States, recv: Filing, judge: Hash -> TxFate, t: BlockTx) {
    var next := NextTx(recv, t.dest, t.next);
    next != 0 && HasTx(ss, next) ==> judge(next) in {NonceMissing, Delayed}
  }

  /** Transactions of a block are done with: forgotten, and followed up. */
  ghost predicate TxsFollowed(ss: States, recv: Filing, judge: Hash -> TxFate, txs: seq<BlockTx>) {
    forall t :: t in txs ==> Inv(TxKind, t.txid) !in ss && Followed(ss, recv, judge, t)
  }

  lemma TxsFollowedStep(ss: States, recv: Filing, ss': States, recv': Filing, judge: Hash -> TxFate, txs: seq<BlockTx>,
      i: nat)
    requires i < |txs| && TxsFollowed(ss, recv, judge, txs[..i]) && TxOnly(ss, ss') && Subfiled(recv, recv')
    requires Inv(TxKind, txs[i].txid) !in ss' && Followed(ss', recv', judge, txs[i])
    ensures TxsFollowed(ss', recv', judge, txs[..i+1])
  {
    assert txs[..i+1] == txs[..i] + [txs[i]];
  }

  /** The transactions of a stored block: each lets the next of its sender through and is forgotten. */
  method FollowUp(s: Scheduler, txs: seq<BlockTx>, judge: Hash -> TxFate, now: int)
    requires s.Valid()
    modifies s`states, s`peers, s`missPrevTx, s`recvTx, s.orphanBlock, s.orphanTx
    ensures s.Valid() && s.orphanBlock.byPrev == old(s.orphanBlock.byPrev)
    ensures TxOnly(old(s.states), s.states) && TxsFollowed(s.states, s.recvTx, judge, txs)
  {
    var i := 0;
    while i < |txs|
      invariant 0 <= i <= |txs| && s.Valid() && s.orphanBlock.byPrev == old(s.orphanBlock.byPrev)
      invariant TxOnly(old(s.states), s.states) && TxsFollowed(s.states, s.recvTx, judge, txs[..i])
    {
      ghost var ss, recv := s.states, s.recvTx;
      FollowOne(s, txs[i], judge, now);
      TxsFollowedStep(ss, recv, s.states, s.recvTx, judge, txs, i);
      i := i + 1;
    }
    assert txs[..i] == txs;
  }

  method FollowOne(s: Scheduler, t: BlockTx, judge: Hash -> TxFate, now: int)
    requires s.Valid()
    modifies s`states, s`peers, s`missPrevTx, s`recvTx, s.orphanBlock, s.orphanTx
    ensures s.Valid() && s.orphanBlock.byPrev == old(s.orphanBlock.byPrev)
    ensures TxOnly(old(s.states), s.states) && Subfiled(old(s.recvTx), s.recvTx)
    ensures Inv(TxKind, t.txid) !in s.states && Followed(s.states, s.recvTx, judge, t)
  {
    var next := s.GetNextTx(t.dest, t.next);
    if next != 0 {
      var _, queue := AddNewTx(s, next, judge, now);
      assert queue[..|queue|] == queue && queue[0] == next;
    }
    var _, _ := s.RemoveInv(Inv(TxKind, t.txid));
  }
}
