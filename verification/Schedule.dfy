/** CSchedule (src/blockchain/schedule.cpp): which peer announced which block or transaction, which
    peer is being asked for it, and what has arrived. */
module Schedule {
  import opened Common
  import opened Orphan
  import opened Inventory

  /** An unassigned inventory is given up after ten requests, an hour after the announcement once
      it has been requested, or twelve hours after the announcement. */
  predicate Overdue(st: InvState, now: int) {
    || st.getDataCount >= MAX_REGETDATA_COUNT
    || (st.getDataCount >= 1 && now - st.recvInvTime >= MAX_INV_WAIT_TIME)
    || now - st.recvInvTime >= MAX_INV_WAIT_TIME * 12
  }

  /** What ScheduleKnownInv drops: overdue announcements and objects kept too long. */
  predicate Expired(st: InvState, now: int) {
    if st.assignee == 0 then Overdue(st, now) else st.received.Some? && now >= st.clearObjTime
  }

  /** What a scan of p's inventories of kind k may have selected so far: `picked` is known to p, was
      asked of nobody and is not overdue; `expired` is known to p and due for deletion. */
  ghost predicate Choice(ss: States, ps: Peers, p: nat, k: Kind, now: int, picked: seq<Hash>, expired: set<Hash>) {
    && NoDup(picked)
    && Requestable(ss, ps, p, k, Elems(picked))
    && (forall h :: h in picked ==> Inv(k, h) in ss && !Overdue(ss[Inv(k, h)], now))
    && (forall h :: h in expired ==> Knows(ps, p, Inv(k, h)) && Inv(k, h) in ss && Expired(ss[Inv(k, h)], now))
  }

  lemma ChoicePick(ss: States, ps: Peers, p: nat, k: Kind, now: int, picked: seq<Hash>, expired: set<Hash>, h: Hash)
    requires Choice(ss, ps, p, k, now, picked, expired) && h !in picked
    requires Knows(ps, p, Inv(k, h)) && Inv(k, h) in ss && ss[Inv(k, h)].assignee == 0 && !Overdue(ss[Inv(k, h)], now)
    ensures Choice(ss, ps, p, k, now, picked + [h], expired)
  {
  }

  /** Received objects of p that a scan leaves alone. */
  ghost predicate Kept(ss: States, ps: Peers, p: nat, k: Kind, now: int, kept: set<Hash>) {
    forall h :: h in kept ==>
      Knows(ps, p, Inv(k, h)) && Inv(k, h) in ss && ss[Inv(k, h)].received.Some? && !Expired(ss[Inv(k, h)], now)
  }

  /** A visited inventory was picked, has expired, is kept, or is being fetched from somebody. */
  ghost predicate Settled(ss: States, k: Kind, visited: set<Hash>, picked: seq<Hash>, expired: set<Hash>,
      kept: set<Hash>) {
    forall h :: h in visited ==>
      h in picked || h in expired || h in kept ||
      (Inv(k, h) in ss && ss[Inv(k, h)].assignee != 0 && ss[Inv(k, h)].received.None?)
  }

  /** The first i announcements of p have been visited. */
  ghost predicate Visited(ss: States, ps: Peers, p: nat, k: Kind, now: int, i: nat, picked: seq<Hash>,
      expired: set<Hash>, kept: set<Hash>) {
    && p in ps && i <= |ps[p].Known(k)| && Kept(ss, ps, p, k, now, kept)
    && kept <= Elems(ps[p].Known(k)[..i])
    && Settled(ss, k, Elems(ps[p].Known(k)[..i]), picked, expired, kept)
  }

  lemma AllVisited(ss: States, ps: Peers, p: nat, k: Kind, now: int, picked: seq<Hash>, expired: set<Hash>,
      kept: set<Hash>)
    requires p in ps && Visited(ss, ps, p, k, now, |ps[p].Known(k)|, picked, expired, kept)
    ensures Settled(ss, k, Elems(ps[p].Known(k)), picked, expired, kept)
  {
    assert ps[p].Known(k)[..|ps[p].Known(k)|] == ps[p].Known(k);
  }

  lemma SettledStep(ss: States, k: Kind, visited: set<Hash>, h: Hash, picked: seq<Hash>, expired: set<Hash>,
      kept: set<Hash>,
                    picked': seq<Hash>, expired': set<Hash>, kept': set<Hash>)
    requires Settled(ss, k, visited, picked, expired, kept) && Settled(ss, k, {h}, picked', expired', kept')
    requires (picked' == picked || picked' == picked + [h]) && expired <= expired' && kept <= kept'
    ensures Settled(ss, k, visited + {h}, picked', expired', kept')
  {
  }

  /** Under the mirror invariant every announcement has a state. */
  lemma KnownHasState(ss: States, ps: Peers, p: nat, k: Kind, i: nat)
    requires Good(ss, ps) && p in ps && i < |ps[p].Known(k)|
    ensures Knows(ps, p, Inv(k, ps[p].Known(k)[i])) && Inv(k, ps[p].Known(k)[i]) in ss
    ensures StateOk(Inv(k, ps[p].Known(k)[i]), ss[Inv(k, ps[p].Known(k)[i])])
    ensures ps[p].Known(k)[i] !in Elems(ps[p].Known(k)[..i])
    ensures Elems(ps[p].Known(k)[..i+1]) == Elems(ps[p].Known(k)[..i]) + {ps[p].Known(k)[i]}
  {
    assert ps[p].Known(k)[..i+1] == ps[p].Known(k)[..i] + [ps[p].Known(k)[i]];
    var inv := Inv(k, ps[p].Known(k)[i]);
    assert Knows(ps, p, inv);
    assert KnownBy(ss, p, inv);
    assert NoDup(ps[p].Known(k));
  }

  /** A known inventory of the peer after a scan: not expired. */
  ghost predicate Remaining(ss: States, ps: Peers, p: nat, k: Kind, expired: set<Hash>, rest: seq<Hash>)
    requires p in ps
  {
    NoDup(rest) && forall h :: h in rest <==> h in ps[p].Known(k) && h !in expired
  }

  /** Counting the kept objects against the remaining list decides whether all of it is received. */
  lemma ReceivedAllIff(ss: States, ps: Peers, p: nat, k: Kind, now: int, picked: seq<Hash>, expired: set<Hash>,
      kept: set<Hash>, rest: seq<Hash>)
    requires Good(ss, ps) && p in ps && Choice(ss, ps, p, k, now, picked, expired) && Kept(ss, ps, p, k, now, kept)
    requires Remaining(ss, ps, p, k, expired, rest)
    requires picked == [] ==> Settled(ss, k, Elems(ps[p].Known(k)), picked, expired, kept)
    ensures |kept| == |rest| <==> forall h :: h in rest ==> Inv(k, h) in ss && ss[Inv(k, h)].received.Some?
  {
    assert kept <= Elems(rest);
    SubsetSize(kept, Elems(rest));
    ElemsSize(rest);
    if picked != [] {
      var h := picked[0];
      assert h in Elems(picked) && Knows(ps, p, Inv(k, h));
      assert StateOk(Inv(k, h), ss[Inv(k, h)]);
      assert h in rest && h !in kept;
    } else if forall h :: h in rest ==> Inv(k, h) in ss && ss[Inv(k, h)].received.Some? {
      forall h | h in rest ensures h in kept {
        assert h in Elems(ps[p].Known(k));
      }
      assert kept == Elems(rest);
    } else {
      var h :| h in rest && !(Inv(k, h) in ss && ss[Inv(k, h)].received.Some?);
      assert h in Elems(rest) && h !in kept;
    }
  }

  function Cleared(ss: States, k: Kind, expired: set<Hash>): States {
    map inv | inv in ss && !(inv.kind == k && inv.hash in expired) :: ss[inv]
  }

  lemma ClearedEnds(ss: States, k: Kind, expired: set<Hash>)
    ensures Cleared(ss, k, expired - expired) == ss
    ensures Cleared(ss, k, expired - {}) == Cleared(ss, k, expired)
  {
  }

  lemma ClearedStep(ss: States, k: Kind, expired: set<Hash>, todo: set<Hash>, h: Hash)
    requires h in todo && h in expired
    ensures Cleared(ss, k, expired - todo) - {Inv(k, h)} == Cleared(ss, k, expired - (todo - {h}))
  {
  }

  lemma RemainingAfter(ss: States, ps: Peers, ss': States, ps': Peers, p: nat, k: Kind, picked: seq<Hash>,
      expired: set<Hash>)
    requires Good(ss, ps) && Good(ss', ps') && p in ps && p in ps'
    requires ss' == Cleared(Requested(ss, p, k, Elems(picked)), k, expired)
    ensures Remaining(ss, ps, p, k, expired, ps'[p].Known(k))
    ensures forall h :: h in ps'[p].Known(k) ==>
      Inv(k, h) in ss && Inv(k, h) in ss' && ss'[Inv(k, h)].received == ss[Inv(k, h)].received
  {
    forall h ensures h in ps'[p].Known(k) <==> h in ps[p].Known(k) && h !in expired {
      assert KnownBy(ss, p, Inv(k, h)) <==> Knows(ps, p, Inv(k, h));
      assert KnownBy(ss', p, Inv(k, h)) <==> Knows(ps', p, Inv(k, h));
    }
    forall h | h in ps'[p].Known(k) ensures Inv(k, h) in ss && Inv(k, h) in ss' {
      assert Knows(ps', p, Inv(k, h));
      assert KnownBy(ss', p, Inv(k, h));
    }
  }

  /** A scan that was not cut short leaves none of p's inventories unassigned. */
  lemma AllAssigned(ss: States, ps: Peers, p: nat, k: Kind, now: int, picked: seq<Hash>, expired: set<Hash>,
      kept: set<Hash>, h: Hash)
    requires Good(ss, ps) && p in ps && p != 0 && Kept(ss, ps, p, k, now, kept)
    requires Settled(ss, k, Elems(ps[p].Known(k)), picked, expired, kept)
    requires h in ps[p].Known(k) && h !in expired
    ensures Inv(k, h) in ss && Requested(ss, p, k, Elems(picked))[Inv(k, h)].assignee != 0
  {
    var inv := Inv(k, h);
    assert Knows(ps, p, inv);
    assert KnownBy(ss, p, inv);
    assert StateOk(inv, ss[inv]);
  }

  function Invs(k: Kind, hashes: seq<Hash>): (r: seq<Inv>)
    ensures |r| == |hashes| && forall i :: 0 <= i < |r| ==> r[i] == Inv(k, hashes[i])
  {
    seq(|hashes|, i requires 0 <= i < |hashes| => Inv(k, hashes[i]))
  }

  ghost predicate WhollyReceived(ss: States, peer: InvPeer, k: Kind) {
    forall h :: h in peer.Known(k) ==> Inv(k, h) in ss && ss[Inv(k, h)].received.Some?
  }

  ghost predicate NothingIdle(ss: States, peer: InvPeer, k: Kind) {
    forall h :: h in peer.Known(k) ==> Inv(k, h) in ss && ss[Inv(k, h)].assignee != 0
  }

  /** Its time is up: asked of nobody after ten requests, an hour after its announcement if it was ever
      requested, or half a day after it if not; or received and kept long enough. */
  ghost predicate TimedOut(st: InvState, now: int) {
    if st.assignee == 0 then
      || st.getDataCount >= 10
      || (st.getDataCount >= 1 && now - st.recvInvTime >= 3600)
      || now - st.recvInvTime >= 43200
    else st.received.Some? && now >= st.clearObjTime
  }

  /** Of the peer's inventories only those have gone whose time is up; all of them, if `complete`. */
  ghost predicate OnlyTimedOutGone(ss: States, peer: InvPeer, k: Kind, now: int, ss': States, complete: bool) {
    forall h :: h in peer.Known(k) ==>
      && Inv(k, h) in ss
      && (Inv(k, h) !in ss' ==> TimedOut(ss[Inv(k, h)], now))
      && (complete && TimedOut(ss[Inv(k, h)], now) ==> Inv(k, h) !in ss')
  }

  lemma GoneOutcome(ss: States, ps: Peers, ss': States, p: nat, k: Kind, now: int, picked: seq<Hash>,
      expired: set<Hash>, kept: set<Hash>, complete: bool)
    requires Good(ss, ps) && p in ps && p != 0
    requires Choice(ss, ps, p, k, now, picked, expired) && Kept(ss, ps, p, k, now, kept)
    requires complete ==> Settled(ss, k, Elems(ps[p].Known(k)), picked, expired, kept)
    requires ss' == Cleared(Requested(ss, p, k, Elems(picked)), k, expired)
    ensures OnlyTimedOutGone(ss, ps[p], k, now, ss', complete)
  {
    forall h | h in ps[p].Known(k) ensures
      && Inv(k, h) in ss
      && (Inv(k, h) !in ss' ==> TimedOut(ss[Inv(k, h)], now))
      && (complete && TimedOut(ss[Inv(k, h)], now) ==> Inv(k, h) !in ss') {
      assert Knows(ps, p, Inv(k, h));
      assert KnownBy(ss, p, Inv(k, h));
      assert h in Elems(ps[p].Known(k));
      assert h in picked ==> h in Elems(picked);
    }
  }

  /** What a scan has picked, dropped and counted, and what it leaves. */
  ghost predicate Swept(ss: States, ps: Peers, ss': States, ps': Peers, p: nat, k: Kind, now: int, max: nat,
                        picked: seq<Hash>, expired: set<Hash>, received: nat) {
    && p in ps && p in ps' && |picked| <= max && Choice(ss, ps, p, k, now, picked, expired)
    && ss' == Cleared(Requested(ss, p, k, Elems(picked)), k, expired)
    && Remaining(ss, ps, p, k, expired, ps'[p].Known(k))
    && (received == |ps'[p].Known(k)| <==> WhollyReceived(ss', ps'[p], k))
    && (|picked| < max ==> NothingIdle(ss', ps'[p], k))
    && OnlyTimedOutGone(ss, ps[p], k, now, ss', |picked| < max)
    && SameTimers(ps, ps', k)
  }

  /** Peers keep their timers, and their lists of the other kind. */
  ghost predicate SameTimers(ps: Peers, ps': Peers, k: Kind) {
    forall q :: q in ps && q in ps' ==>
      ps'[q].nextGetBlocksTime == ps[q].nextGetBlocksTime && ps'[q].Lists(Other(k)) == ps[q].Lists(Other(k))
  }

  lemma ScanOutcome(ss: States, ps: Peers, ss': States, ps': Peers, p: nat, k: Kind, now: int, max: nat,
                    picked: seq<Hash>, expired: set<Hash>, kept: set<Hash>)
    requires Good(ss, ps) && Good(ss', ps') && p in ps && p in ps' && p != 0 && max >= 1
    requires Choice(ss, ps, p, k, now, picked, expired) && Kept(ss, ps, p, k, now, kept)
    requires |picked| < max ==> Settled(ss, k, Elems(ps[p].Known(k)), picked, expired, kept)
    requires ss' == Cleared(Requested(ss, p, k, Elems(picked)), k, expired)
    ensures Remaining(ss, ps, p, k, expired, ps'[p].Known(k))
    ensures |kept| == |ps'[p].Known(k)| <==> WhollyReceived(ss', ps'[p], k)
    ensures |picked| < max ==> NothingIdle(ss', ps'[p], k)
  {
    RemainingAfter(ss, ps, ss', ps', p, k, picked, expired);
    ReceivedAllIff(ss, ps, p, k, now, picked, expired, kept, ps'[p].Known(k));
    if |picked| < max {
      forall h | h in ps'[p].Known(k) ensures Inv(k, h) in ss' && ss'[Inv(k, h)].assignee != 0 {
        AllAssigned(ss, ps, p, k, now, picked, expired, kept, h);
      }
    }
  }

  function Other(k: Kind): Kind { if k.TxKind? then BlockKind else TxKind }

  /** The states of one kind are as they were. */
  ghost predicate KindKept(ss: States, ss': States, k: Kind) {
    forall inv: Inv :: inv.kind == k ==> (inv in ss' <==> inv in ss) && (inv in ss ==> ss'[inv] == ss[inv])
  }

  lemma AskedNotReceived(ss: States, ps: Peers, p: nat, inv: Inv)
    requires Good(ss, ps) && p != 0 && Asked(ps, p, inv)
    ensures p in ps && inv.hash in ps[p].Known(inv.kind) && inv in ss && ss[inv].received.None?
  {
    assert AwaitedFrom(ss, p, inv);
    assert StateOk(inv, ss[inv]);
    assert KnownBy(ss, p, inv);
    assert Knows(ps, p, inv);
  }

  /** While only the other kind is scheduled, what can be said of a peer's list stays true. */
  lemma ListStays(ss: States, ps: Peers, ss': States, ps': Peers, p: nat, k: Kind)
    requires p in ps && p in ps' && KindKept(ss, ss', k) && SameTimers(ps, ps', Other(k))
    ensures NothingIdle(ss', ps'[p], k) <==> NothingIdle(ss, ps[p], k)
    ensures WhollyReceived(ss', ps'[p], k) <==> WhollyReceived(ss, ps[p], k)
    ensures ps'[p].Known(k) == ps[p].Known(k)
  {
  }

  ghost predicate IdlePeer(ps: Peers, p: nat) {
    p in ps && !ps[p].IsAssigned()
  }

  /** All announced blocks have arrived, and there is room for more announcements. */
  ghost predicate WantsMore(ss: States, peer: InvPeer) {
    && peer.Known(BlockKind) != [] && WhollyReceived(ss, peer, BlockKind)
    && |ss| < MAX_INV_COUNT && |peer.Known(BlockKind)| < KnownLimit(BlockKind)
  }

  /** The peer's list of this kind is as long as it may be, and all of it has arrived. */
  ghost predicate Clogged(ss: States, peer: InvPeer, k: Kind) {
    |peer.Known(k)| == KnownLimit(k) && WhollyReceived(ss, peer, k)
  }

  lemma StruckTimers(ps: Peers, ps': Peers, inv: Inv, who: set<nat>)
    requires SameTimers(ps, ps', inv.kind) && ps.Keys == ps'.Keys
    ensures SameTimers(ps, Struck(ps', inv, who), inv.kind) && Struck(ps', inv, who).Keys == ps.Keys
  {
  }

  lemma SweptBy(ss: States, ps: Peers, mid: Peers, ss': States, ps': Peers, p: nat, k: Kind, now: int, max: nat,
      picked: seq<Hash>, expired: set<Hash>, kept: set<Hash>)
    requires Good(ss, ps) && Good(ss', ps') && p in ps && p in ps' && p != 0 && 1 <= max && |picked| <= max
    requires Choice(ss, ps, p, k, now, picked, expired) && Kept(ss, ps, p, k, now, kept)
    requires |picked| < max ==> Settled(ss, k, Elems(ps[p].Known(k)), picked, expired, kept)
    requires ss' == Cleared(Requested(ss, p, k, Elems(picked)), k, expired)
    requires mid == WithRequests(ps, p, k, Elems(picked)) && SameTimers(mid, ps', k)
    ensures Swept(ss, ps, ss', ps', p, k, now, max, picked, expired, |kept|)
  {
    ScanOutcome(ss, ps, ss', ps', p, k, now, max, picked, expired, kept);
    GoneOutcome(ss, ps, ss', p, k, now, picked, expired, kept, |picked| < max);
    RequestTimers(ps, ps', p, k, Elems(picked));
  }

  lemma RequestTimers(ps: Peers, ps': Peers, p: nat, k: Kind, a: set<Hash>)
    requires p in ps && SameTimers(WithRequests(ps, p, k, a), ps', k)
    ensures SameTimers(ps, ps', k)
  {
    var mid := WithRequests(ps, p, k, a);
    forall q | q in ps && q in ps' ensures ps'[q].nextGetBlocksTime == ps[q].nextGetBlocksTime &&
        ps'[q].Lists(Other(k)) == ps[q].Lists(Other(k)) {
      assert q in mid;
    }
  }

  /** An idle peer is afterwards being asked for exactly what was picked. */
  lemma OutstandingIsPicked(ss: States, ps: Peers, ss': States, ps': Peers, p: nat, k: Kind, now: int,
                            picked: seq<Hash>, expired: set<Hash>, inv: Inv)
    requires Good(ss, ps) && Good(ss', ps') && p in ps && p != 0 && !ps[p].IsAssigned()
    requires Choice(ss, ps, p, k, now, picked, expired)
    requires ss' == Cleared(Requested(ss, p, k, Elems(picked)), k, expired)
    ensures Asked(ps', p, inv) <==> inv in Invs(k, picked)
  {
    assert Asked(ps', p, inv) <==> AwaitedFrom(ss', p, inv);
    assert !Asked(ps, p, inv);
    assert !AwaitedFrom(ss, p, inv);
    if inv in Invs(k, picked) {
      assert inv.hash in Elems(picked);
      assert Inv(k, inv.hash) == inv && StateOk(inv, ss[inv]);
    } else if inv.kind == k && inv.hash in picked {
      var i :| 0 <= i < |picked| && picked[i] == inv.hash;
      assert Invs(k, picked)[i] == inv;
    }
  }

  /** The orphan entries kept are those whose object's state was not deleted. */
  ghost predicate Pruned(e: Edges, e': Edges, ss: States, ss': States) {
    forall q, c :: c in Next(e', q) <==> c in Next(e, q) && (Inv(BlockKind, c) in ss ==> Inv(BlockKind, c) in ss')
  }

  lemma PrunedTwice(e: Edges, e': Edges, e'': Edges, ss: States, ss': States, ss'': States)
    requires Pruned(e, e', ss, ss') && Pruned(e', e'', ss', ss'')
    requires ss''.Keys <= ss'.Keys <= ss.Keys
    ensures Pruned(e, e'', ss, ss'')
  {
  }

  // ---------------------------------------------------------------- received transactions

  ghost predicate HasTx(ss: States, txid: Hash) {
    Inv(TxKind, txid) in ss && ss[Inv(TxKind, txid)].received.Some?
  }

  function NextTx(recv: map<(Dest, nat), Hash>, from: Dest, nonce: nat): Hash {
    if (from, nonce) in recv then recv[(from, nonce)] else 0
  }

  /** mapRecvTxDest after a transaction has arrived. */
  function Filed(recv: map<(Dest, nat), Hash>, txid: Hash, obj: Object): map<(Dest, nat), Hash> {
    match obj
    case TxObject(from, nonce) => recv[(from, nonce) := txid]
    case BlockObject(_, _) => recv
  }

  /** mapRecvTxDest after an inventory has gone: a received transaction frees its sender and nonce. */
  function Unfiled(recv: map<(Dest, nat), Hash>, ss: States, inv: Inv): map<(Dest, nat), Hash> {
    if inv.kind.BlockKind? || inv !in ss then recv
    else
      match ss[inv].received
      case Some(TxObject(from, nonce)) => recv - {(from, nonce)}
      case _ => recv
  }

  // ---------------------------------------------------------------- discarding

  /** who are exactly the peers that knew an inventory which has gone. */
  ghost predicate Reported(ss: States, ss': States, who: set<nat>) {
    forall q :: q in who <==> exists inv :: inv in ss && inv !in ss' && q in ss[inv].known
  }

  lemma ReportedStep(ss: States, ss': States, who: set<nat>, inv: Inv)
    requires (forall i :: i in ss' ==> i in ss && ss'[i] == ss[i]) && Reported(ss, ss', who)
    ensures Reported(ss, ss' - {inv}, who + if inv in ss' then ss'[inv].known else {})
  {
    var extra := if inv in ss' then ss'[inv].known else {};
    forall q ensures q in who + extra <==> exists i :: i in ss && i !in ss' - {inv} && q in ss[i].known {
      if q in who {
        var i :| i in ss && i !in ss' && q in ss[i].known;
        assert i !in ss' - {inv};
      }
      if q in extra {
        assert inv in ss && inv !in ss' - {inv} && q in ss[inv].known;
      }
    }
  }

  lemma DiscardNone(ss: States, k: Kind)
    ensures Cleared(ss, k, Elems([])) == ss && Reported(ss, ss, {})
  {
  }

  lemma DiscardStep(ss: States, k: Kind, invalid: seq<Hash>, i: nat)
    requires i < |invalid|
    ensures Cleared(ss, k, Elems(invalid[..i])) - {Inv(k, invalid[i])} == Cleared(ss, k, Elems(invalid[..i+1]))
  {
    assert invalid[..i+1] == invalid[..i] + [invalid[i]];
  }

  class Scheduler {
    const orphanBlock: OrphanMap
    const orphanTx: OrphanMap
    var states: States
    var peers: Peers
    var missPrevTx: set<Hash>
    var recvTx: map<(Dest, nat), Hash>

    ghost predicate Valid()
      reads this, orphanBlock, orphanTx
    {
      && orphanBlock != orphanTx
      && orphanBlock.Valid() && orphanTx.Valid()
      && Good(states, peers)
    }

    constructor ()
      ensures Valid()
      ensures states == map[] && peers == map[] && missPrevTx == {} && recvTx == map[]
      ensures orphanBlock.byPrev == map[] && orphanTx.byPrev == map[]
      ensures fresh(orphanBlock) && fresh(orphanTx)
    {
      orphanBlock := new OrphanMap();
      orphanTx := new OrphanMap();
      states, peers, missPrevTx, recvTx := map[], map[], {}, map[];
    }

    // -------------------------------------------------------------- queries

    method GetBlock(hash: Hash) returns (block: Option<Object>)
      requires Valid()
      ensures block.Some? <==> Inv(BlockKind, hash) in states && states[Inv(BlockKind, hash)].received.Some?
      ensures block.Some? ==> block == states[Inv(BlockKind, hash)].received && block.value.BlockObject?
    {
      var inv := Inv(BlockKind, hash);
      block := None;
      if inv in states {
        block := states[inv].received;
      }
    }

    method GetNextBlock(hash: Hash, next: seq<Hash>) returns (r: seq<Hash>)
      ensures r == next + Next(orphanBlock.byPrev, hash)
    {
      r := next + Next(orphanBlock.byPrev, hash);
    }

    method GetTransaction(txid: Hash) returns (tx: Option<Object>)
      requires Valid()
      ensures tx == if HasTx(states, txid) then states[Inv(TxKind, txid)].received else None
      ensures tx.Some? ==> tx.value.TxObject?
    {
      var inv := Inv(TxKind, txid);
      tx := None;
      if inv in states {
        tx := states[inv].received;
      }
    }

    /** The received transaction of a sender with this nonce; 0 when none is filed. */
    method GetNextTx(from: Dest, nonce: nat) returns (txid: Hash)
      ensures txid == NextTx(recvTx, from, nonce)
    {
      txid := NextTx(recvTx, from, nonce);
    }

    // -------------------------------------------------------------- announcements

    /** The first mention of a peer creates its record, unless the state table is full already. */
    method CheckAddInvIdleLocation(p: nat, k: Kind) returns (idle: bool)
      requires Valid() && p != 0
      modifies this`peers
      ensures Valid()
      ensures peers == Met(old(peers), p, states)
      ensures idle <==> |states| < MAX_INV_COUNT && |peers[p].Known(k)| < KnownLimit(k)
    {
      if |states| >= MAX_INV_COUNT {
        return false;
      }
      TouchKeeps(states, peers, p);
      peers := Touch(peers, p);
      idle := |peers[p].Known(k)| < KnownLimit(k);
    }

    method AddNewInv(inv: Inv, p: nat, now: int) returns (added: bool)
      requires Valid() && p != 0
      modifies this`states, this`peers
      ensures Valid()
      ensures added <==>
        |old(states)| < MAX_INV_COUNT && |Touch(old(peers), p)[p].Known(inv.kind)| < KnownLimit(inv.kind)
      ensures added ==>
        && states == Announced(old(states), inv, p, now)
        && peers == Touch(old(peers), p)[p := Touch(old(peers), p)[p].AddNewInv(inv)]
      ensures !added ==> states == old(states) && peers == Met(old(peers), p, states)
    {
      added := CheckAddInvIdleLocation(p, inv.kind);
      if added {
        AnnounceKeeps(states, peers, inv, p, now);
        states := Announced(states, inv, p, now);
        peers := peers[p := peers[p].AddNewInv(inv)];
      }
    }

    // -------------------------------------------------------------- removal

    /** Erases one state and the orphan entries that wait under its name. */
    method RemoveInvState(inv: Inv)
      requires orphanBlock != orphanTx && orphanBlock.Valid() && orphanTx.Valid()
      modifies this`states, this`missPrevTx, this`recvTx, orphanBlock, orphanTx
      ensures orphanBlock.Valid() && orphanTx.Valid()
      ensures states == old(states) - {inv}
      ensures missPrevTx == if inv.kind.TxKind? then old(missPrevTx) - {inv.hash} else old(missPrevTx)
      ensures recvTx == Unfiled(old(recvTx), old(states), inv)
      ensures orphanBlock.byPrev == if inv.kind.BlockKind?
              then Dropped(old(orphanBlock.byPrev), inv.hash) else old(orphanBlock.byPrev)
      ensures orphanTx.byPrev == if inv.kind.TxKind?
              then Dropped(old(orphanTx.byPrev), inv.hash) else old(orphanTx.byPrev)
    {
      if inv.kind.TxKind? {
        orphanTx.Remove(inv.hash);
        missPrevTx := missPrevTx - {inv.hash};
        recvTx := Unfiled(recvTx, states, inv);
      } else {
        orphanBlock.Remove(inv.hash);
      }
      states := states - {inv};
    }

    /** Forgets an inventory altogether and reports who knew it. */
    method RemoveInv(inv: Inv) returns (removed: bool, who: set<nat>)
      requires Valid()
      modifies this`states, this`peers, this`missPrevTx, this`recvTx, orphanBlock, orphanTx
      ensures Valid()
      ensures removed <==> inv in old(states)
      ensures removed ==> who == old(states)[inv].known
      ensures !removed ==> who == {}
      ensures states == old(states) - {inv}
      ensures peers == Struck(old(peers), inv, who)
      ensures removed && inv.kind.BlockKind? ==> orphanBlock.byPrev == Dropped(old(orphanBlock.byPrev), inv.hash)
      ensures !removed || inv.kind.TxKind? ==> orphanBlock.byPrev == old(orphanBlock.byPrev)
      ensures Pruned(old(orphanBlock.byPrev), orphanBlock.byPrev, old(states), states)
      ensures missPrevTx <= old(missPrevTx) && recvTx == Unfiled(old(recvTx), old(states), inv)
    {
      removed, who := inv in states, {};
      if removed {
        RemoveKeeps(states, peers, inv);
        who := states[inv].known;
        forall q | q in who ensures q in peers {
          assert KnownBy(states, q, inv);
          assert Knows(peers, q, inv);
        }
        peers := StrikeFromPeers(peers, inv, who);
        RemoveInvState(inv);
      } else {
        assert states - {inv} == states;
        assert Struck(peers, inv, {}) == peers;
      }
    }

    /** Takes p out of one inventory. */
    method LeaveInv(inv: Inv, p: nat, sched: set<nat>) returns (sched': set<nat>)
      requires orphanBlock != orphanTx && orphanBlock.Valid() && orphanTx.Valid()
      modifies this`states, this`missPrevTx, this`recvTx, orphanBlock, orphanTx
      ensures orphanBlock.Valid() && orphanTx.Valid()
      ensures inv !in old(states) ==> states == old(states)
      ensures inv in old(states) && old(states)[inv].known - {p} == {} ==> states == old(states) - {inv}
      ensures inv in old(states) && old(states)[inv].known - {p} != {} ==>
              states == old(states)[inv := Orphaned(old(states)[inv], p)]
      ensures sched' == sched + (if inv in old(states) &&
              old(states)[inv].assignee == p then old(states)[inv].known - {p} else {})
      ensures Pruned(old(orphanBlock.byPrev), orphanBlock.byPrev, old(states), states)
    {
      sched' := sched;
      if inv in states {
        var st := states[inv];
        if st.known - {p} == {} {
          RemoveInvState(inv);
        } else {
          states := states[inv := st.(known := st.known - {p})];
          if st.assignee == p {
            states := states[inv := states[inv].(assignee := 0, received := None)];
            sched' := sched' + states[inv].known;
          }
        }
      }
    }

    method LeaveAll(list: seq<Inv>, p: nat) returns (sched: set<nat>)
      requires orphanBlock != orphanTx && orphanBlock.Valid() && orphanTx.Valid()
      requires forall i, j :: 0 <= i < j < |list| ==> list[i] != list[j]
      modifies this`states, this`missPrevTx, this`recvTx, orphanBlock, orphanTx
      ensures orphanBlock.Valid() && orphanTx.Valid()
      ensures states == Departed(old(states), p, list)
      ensures sched == Rescheduled(old(states), p, list)
      ensures Pruned(old(orphanBlock.byPrev), orphanBlock.byPrev, old(states), states)
    {
      sched := {};
      ghost var ss, e := states, orphanBlock.byPrev;
      DepartNone(ss, p);
      var i := 0;
      while i < |list|
        invariant 0 <= i <= |list|
        invariant orphanBlock.Valid() && orphanTx.Valid()
        invariant states == Departed(ss, p, list[..i])
        invariant sched == Rescheduled(ss, p, list[..i])
        invariant Pruned(e, orphanBlock.byPrev, ss, states)
      {
        assert list[..i+1] == list[..i] + [list[i]];
        DepartStep(ss, p, list[..i], list[i]);
        RescheduledStep(ss, p, list[..i], list[i]);
        ghost var ss', e' := states, orphanBlock.byPrev;
        sched := LeaveInv(list[i], p, sched);
        PrunedTwice(e, e', orphanBlock.byPrev, ss, ss', states);
        i := i + 1;
      }
      assert list[..i] == list;
    }

    /** Forgets a peer: its sole inventories go, what it was asked for becomes free again, and no
        state mentions it any more. */
    method RemovePeer(p: nat) returns (sched: set<nat>)
      requires Valid() && p != 0
      modifies this`states, this`peers, this`missPrevTx, this`recvTx, orphanBlock, orphanTx
      ensures Valid()
      ensures peers == old(peers) - {p}
      ensures p in old(peers) ==> states == Departed(old(states), p, KnownInvs(old(peers)[p]))
      ensures p in old(peers) ==> sched == Rescheduled(old(states), p, KnownInvs(old(peers)[p]))
      ensures p !in old(peers) ==> states == old(states) && sched == {}
      ensures forall inv :: inv in states ==> p !in states[inv].known && states[inv].assignee != p
      ensures Pruned(old(orphanBlock.byPrev), orphanBlock.byPrev, old(states), states)
    {
      sched := {};
      if p in peers {
        var list := KnownInvs(peers[p]);
        KnownInvsNoDup(peers[p]);
        DepartKeeps(states, peers, p, list);
        sched := LeaveAll(list, p);
        peers := peers - {p};
      } else {
        assert peers - {p} == peers;
        forall inv | inv in states ensures p !in states[inv].known && states[inv].assignee != p {
          assert !Knows(peers, p, inv);
          assert !KnownBy(states, p, inv);
          assert StateOk(inv, states[inv]);
        }
      }
    }

    // -------------------------------------------------------------- delivery

    /** Accepts an object only from the peer it was asked of, and only once. */
    method Receive(p: nat, inv: Inv, obj: Object, now: int) returns (accepted: bool, sched: set<nat>)
      requires Valid() && p != 0
      requires obj.BlockObject? <==> inv.kind.BlockKind?
      modifies this`states, this`peers, this`missPrevTx, this`recvTx
      ensures Valid()
      ensures accepted <==> AwaitedFrom(old(states), p, inv)
      ensures accepted ==>
        && states == old(states)[inv := Arrived(old(states)[inv], obj, now)]
        && p in old(peers) && peers == old(peers)[p := old(peers)[p].Completed(inv)]
        && sched == old(states)[inv].known
        && missPrevTx == (if inv.kind.TxKind? then old(missPrevTx) - {inv.hash} else old(missPrevTx))
        && recvTx == Filed(old(recvTx), inv.hash, obj)
      ensures !accepted ==> states == old(states) && peers == old(peers) && sched == {}
      ensures !accepted ==> missPrevTx == old(missPrevTx) && recvTx == old(recvTx)
    {
      accepted, sched := false, {};
      if inv in states && states[inv].assignee == p && states[inv].received.None? {
        ArriveKeeps(states, peers, inv, p, obj, now);
        sched := states[inv].known;
        states := states[inv := Arrived(states[inv], obj, now)];
        peers := peers[p := peers[p].Completed(inv)];
        if inv.kind.TxKind? {
          missPrevTx := missPrevTx - {inv.hash};
        }
        recvTx := Filed(recvTx, inv.hash, obj);
        accepted := true;
      }
    }

    /** The peer reports that it cannot deliver: it no longer counts as knowing the object. */
    method CancelAssignedInv(p: nat, inv: Inv) returns (ok: bool)
      requires Valid() && p != 0
      modifies this`states, this`peers, this`missPrevTx, this`recvTx, orphanBlock, orphanTx
      ensures Valid()
      ensures ok <==> inv in old(states) && old(states)[inv].assignee == p
      ensures AwaitedFrom(old(states), p, inv) ==>
        && states == GivenUp(old(states), inv, p)
        && p in old(peers) && peers == old(peers)[p := old(peers)[p].RemoveInv(inv)]
      ensures !AwaitedFrom(old(states), p, inv) ==> states == old(states) && peers == old(peers)
    {
      ok := inv in states && states[inv].assignee == p;
      if ok && states[inv].received.None? {
        CancelKeeps(states, peers, inv, p);
        ghost var ss := states;
        states := states[inv := states[inv].(assignee := 0, known := states[inv].known - {p})];
        if states[inv].known == {} {
          RemoveInvState(inv);
          assert states == ss - {inv};
        }
        assert states == GivenUp(ss, inv, p);
        peers := peers[p := peers[p].RemoveInv(inv)];
      }
    }

    method SetDelayedClear(inv: Inv, until: int) returns (found: bool)
      requires Valid()
      modifies this`states
      ensures Valid()
      ensures found <==> inv in old(states)
      ensures states == if found then old(states)[inv := old(states)[inv].(clearObjTime := until)] else old(states)
    {
      found := inv in states;
      if found {
        DelayKeeps(states, peers, inv, until);
        states := states[inv := states[inv].(clearObjTime := until)];
      }
    }

    // -------------------------------------------------------------- orphans

    method AddOrphanBlockPrev(hash: Hash, prev: Hash)
      requires Valid()
      modifies orphanBlock
      ensures Valid()
      ensures orphanBlock.byPrev == old(orphanBlock.byPrev)[prev := Next(old(orphanBlock.byPrev), prev) + [hash]]
    {
      orphanBlock.AddNew(prev, hash);
    }

    method AddOrphanTxPrev(txid: Hash, prev: Hash)
      requires Valid()
      modifies orphanTx
      ensures Valid()
      ensures orphanTx.byPrev == old(orphanTx.byPrev)[prev := Next(old(orphanTx.byPrev), prev) + [txid]]
    {
      orphanTx.AddNew(prev, txid);
    }

    /** Marks a transaction that others wait for as missing, unless it is there already, and tells
        whether anybody has announced it. */
    method CheckPrevTxInv(txid: Hash) returns (known: bool)
      requires Valid()
      modifies this`missPrevTx
      ensures Valid()
      ensures known <==> Inv(TxKind, txid) in states
      ensures missPrevTx == if HasTx(states, txid) then old(missPrevTx) else old(missPrevTx) + {txid}
    {
      known := Inv(TxKind, txid) in states;
      if !known || states[Inv(TxKind, txid)].received.None? {
        missPrevTx := missPrevTx + {txid};
      }
    }

    /** Drops a bad block and everything that waits for it, directly or not. */
    method InvalidateBlock(hash: Hash) returns (misbehave: set<nat>)
      requires Valid()
      modifies this`states, this`peers, this`missPrevTx, this`recvTx, orphanBlock, orphanTx
      ensures Valid()
      ensures forall inv :: inv in states <==>
                inv in old(states) &&
                !(inv.kind.BlockKind? && (inv.hash == hash || Reaches(old(orphanBlock.byPrev), hash, inv.hash)))
      ensures forall inv :: inv in states ==> states[inv] == old(states)[inv]
      ensures Reported(old(states), states, misbehave)
    {
      var invalid := orphanBlock.RemoveBranch(hash);
      misbehave := DiscardAll(BlockKind, invalid + [hash]);
    }

    /** The same for a transaction. */
    method InvalidateTx(txid: Hash) returns (misbehave: set<nat>)
      requires Valid()
      modifies this`states, this`peers, this`missPrevTx, this`recvTx, orphanBlock, orphanTx
      ensures Valid()
      ensures forall inv :: inv in states <==>
                inv in old(states) &&
                !(inv.kind.TxKind? && (inv.hash == txid || Reaches(old(orphanTx.byPrev), txid, inv.hash)))
      ensures forall inv :: inv in states ==> states[inv] == old(states)[inv]
      ensures Reported(old(states), states, misbehave)
    {
      var invalid := orphanTx.RemoveBranch(txid);
      misbehave := DiscardAll(TxKind, invalid + [txid]);
    }

    method DiscardAll(k: Kind, invalid: seq<Hash>) returns (misbehave: set<nat>)
      requires Valid()
      modifies this`states, this`peers, this`missPrevTx, this`recvTx, orphanBlock, orphanTx
      ensures Valid()
      ensures states == Cleared(old(states), k, Elems(invalid))
      ensures Reported(old(states), states, misbehave)
    {
      ghost var ss := states;
      misbehave := {};
      var i := 0;
      DiscardNone(ss, k);
      while i < |invalid|
        invariant 0 <= i <= |invalid|
        invariant Valid()
        invariant states == Cleared(ss, k, Elems(invalid[..i]))
        invariant Reported(ss, states, misbehave)
      {
        DiscardStep(ss, k, invalid, i);
        misbehave := Discard(Inv(k, invalid[i]), misbehave, ss);
        i := i + 1;
      }
      assert invalid[..i] == invalid;
    }

    /** RemoveInv while collecting the peers that knew the inventory. */
    method Discard(inv: Inv, who: set<nat>, ghost ss: States) returns (who': set<nat>)
      requires Valid()
      requires (forall i :: i in states ==> i in ss && states[i] == ss[i]) && Reported(ss, states, who)
      modifies this`states, this`peers, this`missPrevTx, this`recvTx, orphanBlock, orphanTx
      ensures Valid()
      ensures states == old(states) - {inv} && Reported(ss, states, who')
    {
      ReportedStep(ss, states, who, inv);
      var removed, extra := RemoveInv(inv);
      who' := who + extra;
    }

    // -------------------------------------------------------------- requests

    /** The scheduler while it scans: the picked inventories are requested, nothing else has changed. */
    ghost predicate Scanning(ss: States, ps: Peers, p: nat, k: Kind, now: int, picked: seq<Hash>, expired: set<Hash>)
      reads this
    {
      && p in ps
      && Choice(ss, ps, p, k, now, picked, expired)
      && states == Requested(ss, p, k, Elems(picked))
      && peers == WithRequests(ps, p, k, Elems(picked))
    }

    /** An unassigned inventory is either overdue or requested from p. */
    method TryRequest(p: nat, k: Kind, h: Hash, now: int, picked: seq<Hash>, expired: set<Hash>, ghost ss: States,
        ghost ps: Peers)
      returns (picked': seq<Hash>, expired': set<Hash>)
      requires Scanning(ss, ps, p, k, now, picked, expired) && h !in picked
      requires Knows(ps, p, Inv(k, h)) && Inv(k, h) in ss && ss[Inv(k, h)].assignee == 0
      modifies this`states, this`peers
      ensures Scanning(ss, ps, p, k, now, picked', expired')
      ensures if Overdue(ss[Inv(k, h)], now) then picked' == picked && expired' == expired + {h}
              else picked' == picked + [h] && expired' == expired
    {
      var inv := Inv(k, h);
      RequestStep(ss, ps, p, k, Elems(picked), h);
      if Overdue(states[inv], now) {
        picked', expired' := picked, expired + {h};
      } else {
        ChoicePick(ss, ps, p, k, now, picked, expired, h);
        ElemsAppend(picked, h);
        states := states[inv := states[inv].(assignee := p, getDataCount := states[inv].getDataCount + 1)];
        peers := peers[p := peers[p].Assign(inv)];
        picked', expired' := picked + [h], expired;
      }
    }

    method VisitMissing(p: nat, h: Hash, now: int, picked: seq<Hash>, expired: set<Hash>, ghost ss: States,
        ghost ps: Peers)
      returns (picked': seq<Hash>, expired': set<Hash>)
      requires Scanning(ss, ps, p, TxKind, now, picked, expired) && h !in picked
      modifies this`states, this`peers, this`missPrevTx
      ensures Scanning(ss, ps, p, TxKind, now, picked', expired')
      ensures picked' == picked || picked' == picked + [h]
      ensures missPrevTx <= old(missPrevTx)
    {
      var inv := Inv(TxKind, h);
      picked', expired' := picked, expired;
      if inv in states {
        if states[inv].assignee == 0 && h in peers[p].Known(TxKind) {
          picked', expired' := TryRequest(p, TxKind, h, now, picked, expired, ss, ps);
        }
      } else {
        missPrevTx := missPrevTx - {h};
      }
    }

    /** First pass of ScheduleKnownInv: transactions that other transactions wait for. */
    method ScanMissing(p: nat, max: nat, now: int) returns (picked: seq<Hash>, expired: set<Hash>)
      requires p in peers && max >= 1
      modifies this`states, this`peers, this`missPrevTx
      ensures Scanning(old(states), old(peers), p, TxKind, now, picked, expired)
      ensures |picked| <= max && missPrevTx <= old(missPrevTx)
    {
      picked, expired := [], {};
      ghost var ss, ps := states, peers;
      RequestNone(ss, ps, p, TxKind);
      var todo := missPrevTx;
      while todo != {} && |picked| < max
        invariant |picked| <= max
        invariant Scanning(ss, ps, p, TxKind, now, picked, expired)
        invariant forall h :: h in todo ==> h !in picked
        invariant missPrevTx <= old(missPrevTx)
        decreases |todo|
      {
        var h := Least(todo);
        picked, expired := VisitMissing(p, h, now, picked, expired, ss, ps);
        todo := todo - {h};
      }
    }

    method VisitKnown(p: nat, k: Kind, h: Hash, now: int, picked: seq<Hash>, expired: set<Hash>, received: nat,
                      ghost kept: set<Hash>, ghost ss: States, ghost ps: Peers)
      returns (picked': seq<Hash>, expired': set<Hash>, received': nat, stale: set<Hash>, ghost kept': set<Hash>)
      requires Scanning(ss, ps, p, k, now, picked, expired) && Kept(ss, ps, p, k, now, kept)
      requires Knows(ps, p, Inv(k, h)) && Inv(k, h) in ss
      requires h !in kept && received == |kept| && p != 0 && StateOk(Inv(k, h), ss[Inv(k, h)])
      modifies this`states, this`peers
      ensures Scanning(ss, ps, p, k, now, picked', expired') && Kept(ss, ps, p, k, now, kept')
      ensures picked' == picked || picked' == picked + [h]
      ensures expired <= expired' && kept <= kept' <= kept + {h} && stale == {} && received' == |kept'|
      ensures Settled(ss, k, {h}, picked', expired', kept')
    {
      var inv := Inv(k, h);
      picked', expired', received', kept', stale := picked, expired, received, kept, {};
      assert inv in states && states[inv] == if h in picked
          then ss[inv].(assignee := p, getDataCount := ss[inv].getDataCount + 1) else ss[inv];
      assert h in picked ==> ss[inv].assignee == 0;
      if inv in states {
        if states[inv].assignee == 0 {
          picked', expired' := TryRequest(p, k, h, now, picked, expired, ss, ps);
        } else if states[inv].received.Some? {
          if now >= states[inv].clearObjTime {
            expired' := expired + {h};
          } else {
            kept' := kept + {h};
            received' := received + 1;
          }
        }
      } else {
        stale := {h};
      }
    }

    /** The i-th announcement of kind k of p. */
    method VisitNth(p: nat, k: Kind, i: nat, now: int, picked: seq<Hash>, expired: set<Hash>, received: nat,
                    ghost kept: set<Hash>, ghost ss: States, ghost ps: Peers)
      returns (picked': seq<Hash>, expired': set<Hash>, received': nat, stale: set<Hash>, ghost kept': set<Hash>)
      requires Good(ss, ps) && p != 0 && Scanning(ss, ps, p, k, now, picked, expired)
      requires Visited(ss, ps, p, k, now, i, picked, expired, kept) && i < |ps[p].Known(k)| && received == |kept|
      modifies this`states, this`peers
      ensures Scanning(ss, ps, p, k, now, picked', expired') &&
              Visited(ss, ps, p, k, now, i + 1, picked', expired', kept')
      ensures |picked'| <= |picked| + 1 && stale == {} && received' == |kept'|
    {
      KnownHasState(ss, ps, p, k, i);
      var h := peers[p].Known(k)[i];
      picked', expired', received', stale, kept' := VisitKnown(p, k, h, now, picked, expired, received, kept, ss, ps);
      SettledStep(ss, k, Elems(ps[p].Known(k)[..i]), h, picked, expired, kept, picked', expired', kept');
    }

    /** Second pass: p's announcements of kind k in order, until `max` are picked. The cleanup of
        announcements without a state finds nothing to clean. */
    method ScanKnown(p: nat, k: Kind, max: nat, now: int, picked0: seq<Hash>, expired0: set<Hash>, ghost ss: States,
        ghost ps: Peers)
      returns (picked: seq<Hash>, expired: set<Hash>, received: nat, stale: set<Hash>, ghost kept: set<Hash>)
      requires Good(ss, ps) && p != 0 && Scanning(ss, ps, p, k, now, picked0, expired0) && |picked0| < max
      modifies this`states, this`peers
      ensures Scanning(ss, ps, p, k, now, picked, expired) && Kept(ss, ps, p, k, now, kept)
      ensures |picked| <= max && stale == {} && received == |kept|
      ensures |picked| < max ==> Settled(ss, k, Elems(ps[p].Known(k)), picked, expired, kept)
    {
      picked, expired, received, stale, kept := picked0, expired0, 0, {}, {};
      var count := |peers[p].Known(k)|;
      var i := 0;
      while i < count && |picked| < max
        invariant 0 <= i <= count == |ps[p].Known(k)| && |picked| <= max && stale == {} && received == |kept|
        invariant Scanning(ss, ps, p, k, now, picked, expired)
        invariant Visited(ss, ps, p, k, now, i, picked, expired, kept)
      {
        picked, expired, received, stale, kept := VisitNth(p, k, i, now, picked, expired, received, kept, ss, ps);
        i := i + 1;
      }
      if i == count {
        AllVisited(ss, ps, p, k, now, picked, expired, kept);
      }
    }

    method DropExpired(k: Kind, expired: set<Hash>)
      requires Valid()
      modifies this`states, this`peers, this`missPrevTx, this`recvTx, orphanBlock, orphanTx
      ensures Valid()
      ensures states == Cleared(old(states), k, expired)
      ensures peers.Keys == old(peers).Keys && SameTimers(old(peers), peers, k)
      ensures Pruned(old(orphanBlock.byPrev), orphanBlock.byPrev, old(states), states)
    {
      ghost var ss, e := states, orphanBlock.byPrev;
      var todo := expired;
      ClearedEnds(ss, k, expired);
      while todo != {}
        invariant Valid() && todo <= expired
        invariant states == Cleared(ss, k, expired - todo)
        invariant peers.Keys == old(peers).Keys && SameTimers(old(peers), peers, k)
        invariant Pruned(e, orphanBlock.byPrev, ss, states)
        decreases |todo|
      {
        var h := Least(todo);
        ghost var ss', e', ps' := states, orphanBlock.byPrev, peers;
        var _, who := RemoveInv(Inv(k, h));
        StruckTimers(old(peers), ps', Inv(k, h), who);
        PrunedTwice(e, e', orphanBlock.byPrev, ss, ss', states);
        ClearedStep(ss, k, expired, todo, h);
        todo := todo - {h};
      }
    }

    /** Both passes: requests are recorded, expired inventories are listed. */
    method Scan(p: nat, k: Kind, max: nat, now: int)
      returns (picked: seq<Hash>, expired: set<Hash>, received: nat, ghost kept: set<Hash>)
      requires Valid() && p != 0 && p in peers && !peers[p].IsAssigned() && 1 <= max <= RequestLimit(k)
      modifies this`states, this`peers, this`missPrevTx
      ensures Valid()
      ensures Scanning(old(states), old(peers), p, k, now, picked, expired)
      ensures Kept(old(states), old(peers), p, k, now, kept) && received == |kept| && |picked| <= max
      ensures |picked| < max ==> Settled(old(states), k, Elems(old(peers)[p].Known(k)), picked, expired, kept)
    {
      ghost var ss, ps := states, peers;
      picked, expired, received, kept := [], {}, 0, {};
      RequestNone(ss, ps, p, k);
      if k.TxKind? && missPrevTx != {} {
        picked, expired := ScanMissing(p, max, now);
      }
      if |picked| < max {
        var stale;
        picked, expired, received, stale, kept := ScanKnown(p, k, max, now, picked, expired, ss, ps);
      }
      ElemsSize(picked);
      RequestKeeps(ss, ps, p, k, Elems(picked));
    }

    /** Scans p's inventories and drops what has expired. */
    method Sweep(p: nat, k: Kind, max: nat, now: int)
      returns (picked: seq<Hash>, expired: set<Hash>, received: nat)
      requires Valid() && p != 0 && p in peers && !peers[p].IsAssigned() && 1 <= max <= RequestLimit(k)
      modifies this`states, this`peers, this`missPrevTx, this`recvTx, orphanBlock, orphanTx
      ensures Valid() && peers.Keys == old(peers).Keys
      ensures Swept(old(states), old(peers), states, peers, p, k, now, max, picked, expired, received)
    {
      ghost var ss, ps := states, peers;
      ghost var kept;
      picked, expired, received, kept := Scan(p, k, max, now);
      ghost var mid := peers;
      DropExpired(k, expired);
      SweptBy(ss, ps, mid, states, peers, p, k, now, max, picked, expired, kept);
    }

    /** Chooses what to ask an idle peer for. Everything returned was asked of nobody before and is
        asked of p now; what is dropped was timed out; `receivedAll` tells exactly whether p's
        remaining list is non-empty and wholly received; and a short answer means that nothing p
        knows is left unassigned or timed out. */
    method ScheduleKnownInv(p: nat, k: Kind, max: nat, now: int)
      returns (ok: bool, invs: seq<Inv>, receivedAll: bool, ghost picked: seq<Hash>, ghost expired: set<Hash>)
      requires Valid() && p != 0 && p in peers && !peers[p].IsAssigned() && 1 <= max <= RequestLimit(k)
      modifies this`states, this`peers, this`missPrevTx, this`recvTx, orphanBlock, orphanTx
      ensures Valid() && peers.Keys == old(peers).Keys
      ensures Choice(old(states), old(peers), p, k, now, picked, expired) && |picked| <= max
      ensures invs == Invs(k, picked)
      ensures states == Cleared(Requested(old(states), p, k, Elems(picked)), k, expired)
      ensures Remaining(old(states), old(peers), p, k, expired, peers[p].Known(k))
      ensures receivedAll <==> peers[p].Known(k) != [] && WhollyReceived(states, peers[p], k)
      ensures ok <==> invs != [] || peers[p].Known(k) == []
      ensures |invs| < max ==> NothingIdle(states, peers[p], k)
      ensures OnlyTimedOutGone(old(states), old(peers)[p], k, now, states, |invs| < max)
      ensures SameTimers(old(peers), peers, k)
    {
      var chosen, gone, received := Sweep(p, k, max, now);
      receivedAll := received == |peers[p].Known(k)| && received != 0;
      ok := chosen != [] || peers[p].Known(k) == [];
      invs := Invs(k, chosen);
      picked, expired := chosen, gone;
    }

    method SetNextGetBlocksTime(p: nat, at: int)
      requires Valid() && p != 0
      modifies this`peers
      ensures Valid()
      ensures peers == Touch(old(peers), p)[p := Touch(old(peers), p)[p].(nextGetBlocksTime := at)]
    {
      TouchKeeps(states, peers, p);
      peers := Touch(peers, p);
      TimerKeeps(states, peers, p, at);
      peers := peers[p := peers[p].(nextGetBlocksTime := at)];
    }

    /** Schedules one kind for a peer: a busy or unknown peer is left alone, an idle one ends up being
        asked for exactly the inventories returned. */
    method ScheduleKind(p: nat, k: Kind, max: nat, now: int)
        returns (idle: bool, ok: bool, invs: seq<Inv>, receivedAll: bool)
      requires Valid() && p != 0 && 1 <= max <= RequestLimit(k)
      modifies this`states, this`peers, this`missPrevTx, this`recvTx, orphanBlock, orphanTx
      ensures Valid() && peers.Keys == old(peers).Keys && states.Keys <= old(states).Keys && |invs| <= max
      ensures idle <==> p in old(peers) && !old(peers)[p].IsAssigned()
      ensures !idle ==> invs == [] && ok && !receivedAll && states == old(states) && peers == old(peers)
      ensures idle && old(peers)[p].Known(k) == [] ==> invs == [] && peers[p].Known(k) == []
      ensures idle ==> forall inv :: Asked(peers, p, inv) <==> inv in invs
      ensures idle ==> (ok <==> invs != [] || peers[p].Known(k) == [])
      ensures idle ==> (receivedAll <==> peers[p].Known(k) != [] && WhollyReceived(states, peers[p], k))
      ensures idle && |invs| < max ==> NothingIdle(states, peers[p], k)
      ensures forall inv :: inv in invs ==> inv.kind == k
      ensures SameTimers(old(peers), peers, k) && KindKept(old(states), states, Other(k))
      ensures idle && invs != [] ==> !WhollyReceived(states, peers[p], k)
    {
      idle, ok, invs, receivedAll := p in peers && !peers[p].IsAssigned(), true, [], false;
      if idle {
        ghost var ss, ps := states, peers;
        ghost var picked, expired;
        ok, invs, receivedAll, picked, expired := ScheduleKnownInv(p, k, max, now);
        forall inv ensures Asked(peers, p, inv) <==> inv in invs {
          OutstandingIsPicked(ss, ps, states, peers, p, k, now, picked, expired, inv);
        }
        if picked != [] {
          assert picked[0] in Elems(picked);
          assert Knows(ps, p, Inv(k, picked[0]));
          assert invs[0] in invs;
          AskedNotReceived(states, peers, p, invs[0]);
        }
        if peers[p].Known(k) != [] {
          assert peers[p].Known(k)[0] in ps[p].Known(k);
        }
      }
    }

    /** Blocks for a peer. The answer is false exactly when an idle peer's block list is full of blocks
        that have all been received. `missingPrev` asks for more announcements, once the time has come:
        exactly when there were none, or all have been received and there is room for more. */
    method ScheduleBlockInv(p: nat, max: nat, now: int)
      returns (ok: bool, invs: seq<Inv>, missingPrev: bool, empty: bool)
      requires Valid() && p != 0 && 1 <= max <= RequestLimit(BlockKind)
      modifies this`states, this`peers, this`missPrevTx, this`recvTx, orphanBlock, orphanTx
      ensures Valid() && peers.Keys == old(peers).Keys && states.Keys <= old(states).Keys && |invs| <= max
      ensures IdlePeer(old(peers), p) ==> forall inv :: Asked(peers, p, inv) <==> inv in invs
      ensures !IdlePeer(old(peers), p) ==>
        invs == [] && states == old(states) && peers == old(peers) && ok && !missingPrev
      ensures forall inv :: inv in invs ==> inv.kind.BlockKind?
      ensures empty <==> p !in old(peers) || old(peers)[p].Known(BlockKind) == []
      ensures empty && p in peers ==> peers[p].Known(BlockKind) == []
      ensures IdlePeer(old(peers), p) && |invs| < max ==> NothingIdle(states, peers[p], BlockKind)
      ensures !ok <==> IdlePeer(old(peers), p) && Clogged(states, peers[p], BlockKind)
      ensures missingPrev <==>
        IdlePeer(old(peers), p) && now >= old(peers)[p].nextGetBlocksTime &&
        (empty || WantsMore(states, peers[p]))
      ensures missingPrev ==> invs == []
      ensures SameTimers(old(peers), peers, BlockKind) && KindKept(old(states), states, TxKind)
    {
      missingPrev, empty := false, true;
      if p in peers {
        empty := peers[p].Known(BlockKind) == [];
      }
      var idle, some, receivedAll;
      idle, some, invs, receivedAll := ScheduleKind(p, BlockKind, max, now);
      ok := true;
      if idle {
        assert PeerOk(peers[p]);
        assert |peers[p].Known(BlockKind)| <= KnownLimit(BlockKind);
        if !some {
          ok := !receivedAll || |peers[p].Known(BlockKind)| < MAX_PEER_BLOCK_INV_COUNT;
          if receivedAll && now >= peers[p].nextGetBlocksTime {
            missingPrev := CheckAddInvIdleLocation(p, BlockKind);
          }
        } else if empty && now >= peers[p].nextGetBlocksTime {
          missingPrev := true;
        }
      }
    }

    /** Transactions for a peer. */
    method ScheduleTxInv(p: nat, max: nat, now: int) returns (ok: bool, invs: seq<Inv>, receivedAll: bool)
      requires Valid() && p != 0 && 1 <= max <= RequestLimit(TxKind)
      modifies this`states, this`peers, this`missPrevTx, this`recvTx, orphanBlock, orphanTx
      ensures Valid() && peers.Keys == old(peers).Keys && |invs| <= max
      ensures IdlePeer(old(peers), p) ==> forall inv :: Asked(peers, p, inv) <==> inv in invs
      ensures !IdlePeer(old(peers), p) ==>
        invs == [] && states == old(states) && peers == old(peers) && ok && !receivedAll
      ensures forall inv :: inv in invs ==> inv.kind.TxKind?
      ensures IdlePeer(old(peers), p) && |invs| < max ==> NothingIdle(states, peers[p], TxKind)
      ensures IdlePeer(old(peers), p) ==> (receivedAll <==> WhollyReceived(states, peers[p], TxKind))
      ensures !ok <==> IdlePeer(old(peers), p) && Clogged(states, peers[p], TxKind)
      ensures SameTimers(old(peers), peers, TxKind) && KindKept(old(states), states, BlockKind)
    {
      var idle, some;
      idle, some, invs, receivedAll := ScheduleKind(p, TxKind, max, now);
      ok := true;
      if idle {
        assert PeerOk(peers[p]);
        assert |peers[p].Known(TxKind)| <= KnownLimit(TxKind);
        if !some {
          ok := !receivedAll || |peers[p].Known(TxKind)| < MAX_PEER_TX_INV_COUNT;
        } else if peers[p].Known(TxKind) == [] {
          receivedAll := true;
        }
      }
    }
  }
}
