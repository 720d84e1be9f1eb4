/** CNetChannel (src/blockchain/netchn.cpp): how the scheduler is driven. Requests to a peer, the
    worklist that stores a block together with the orphans waiting for it, and the search for the
    block where that worklist has to start. */
module NetChannel {
  import opened Common
  import opened Orphan
  import opened Inventory
  import opened Schedule
  import opened TxChannel

  const GET_BLOCKS_INTERVAL_DEF_TIME := 120

  // ---------------------------------------------------------------- requests to a peer

  /** No blocks were requested: the request is empty or one for transactions. */
  ghost predicate NoBlocks(request: seq<Inv>) {
    forall inv :: inv in request ==> inv.kind.TxKind?
  }

  /** What an idle peer is left with: a request that is short leaves nothing it announced unassigned. */
  ghost predicate Exhausted(ss: States, peer: InvPeer, request: seq<Inv>, txs: bool) {
    && (|request| < 2 || NoBlocks(request) ==> NothingIdle(ss, peer, BlockKind))
    && (txs && NoBlocks(request) && |request| < 8 ==> NothingIdle(ss, peer, TxKind))
  }

  /** One of the peer's lists that were looked at is clogged. */
  ghost predicate ToBeDropped(ss: States, peer: InvPeer, request: seq<Inv>, getBlocks: bool) {
    Clogged(ss, peer, BlockKind) || (!getBlocks && NoBlocks(request) && Clogged(ss, peer, TxKind))
  }

  /** The transactions, when no block is to be asked for. */
  method ScheduleTxs(s: Scheduler, p: nat, now: int) returns (request: seq<Inv>, close: bool)
    requires s.Valid() && p != 0
    requires p in s.peers && !s.peers[p].IsAssigned() ==>
               NothingIdle(s.states, s.peers[p], BlockKind) && !Clogged(s.states, s.peers[p], BlockKind)
    modifies s`states, s`peers, s`missPrevTx, s`recvTx, s.orphanBlock, s.orphanTx
    ensures s.Valid() && |request| <= 8 && NoBlocks(request) && s.peers.Keys == old(s.peers).Keys
    ensures IdlePeer(old(s.peers), p) ==> forall inv :: Asked(s.peers, p, inv) <==> inv in request
    ensures IdlePeer(old(s.peers), p) ==> Exhausted(s.states, s.peers[p], request, true)
    ensures IdlePeer(old(s.peers), p) ==>
              s.peers[p].Known(BlockKind) == old(s.peers)[p].Known(BlockKind) &&
              (WhollyReceived(s.states, s.peers[p], BlockKind) <==>
                 WhollyReceived(old(s.states), old(s.peers)[p], BlockKind))
    ensures close <==> IdlePeer(old(s.peers), p) && ToBeDropped(s.states, s.peers[p], request, false)
    ensures !IdlePeer(old(s.peers), p) ==> request == [] && s.states == old(s.states) && s.peers == old(s.peers)
  {
    ghost var ss', ps' := s.states, s.peers;
    var ok, receivedAll;
    ok, request, receivedAll := s.ScheduleTxInv(p, 8, now);
    close := !ok;
    if p in s.peers {
      ListStays(ss', ps', s.states, s.peers, p, BlockKind);
    }
  }

  /** Asks a peer for more announcements, and not again before two minutes have passed. */
  method GetBlocks(s: Scheduler, p: nat, now: int)
    requires s.Valid() && p != 0 && p in s.peers
    modifies s`peers
    ensures s.Valid()
    ensures s.peers == old(s.peers)[p := old(s.peers)[p].(nextGetBlocksTime := now + 120)]
  {
    var _ := s.CheckAddInvIdleLocation(p, BlockKind);
    s.SetNextGetBlocksTime(p, now + GET_BLOCKS_INTERVAL_DEF_TIME);
  }

  /** Asks a peer for up to two blocks or, when there are none, for up to eight transactions. What is
      sent is of one kind and, if the peer was idle, it is exactly what the peer now owes us; a short
      request means that nothing the peer announced is left unassigned. The peer is dropped exactly when
      one of its lists is clogged, and asked for more announcements when its blocks are all there. */
  method SchedulePeerInv(s: Scheduler, p: nat, now: int) returns (request: seq<Inv>, close: bool, getBlocks: bool)
    requires s.Valid() && p != 0
    modifies s`states, s`peers, s`missPrevTx, s`recvTx, s.orphanBlock, s.orphanTx
    ensures s.Valid()
    ensures (|request| <= 2 && forall inv :: inv in request ==> inv.kind.BlockKind?) ||
            (|request| <= 8 && NoBlocks(request))
    ensures IdlePeer(old(s.peers), p) ==> p in s.peers && forall inv :: Asked(s.peers, p, inv) <==> inv in request
    ensures p in old(s.peers) && old(s.peers)[p].IsAssigned() ==>
              request == [] && !close && !getBlocks && s.states == old(s.states) && s.peers == old(s.peers)
    ensures IdlePeer(old(s.peers), p) ==> Exhausted(s.states, s.peers[p], request, !getBlocks && !close)
    ensures close <==> IdlePeer(old(s.peers), p) && ToBeDropped(s.states, s.peers[p], request, getBlocks)
    ensures getBlocks ==>
              && request == [] && IdlePeer(old(s.peers), p) && now >= old(s.peers)[p].nextGetBlocksTime
              && (old(s.peers)[p].Known(BlockKind) == [] || WantsMore(s.states, s.peers[p]))
              && s.peers[p].nextGetBlocksTime == now + 120
    ensures !getBlocks && IdlePeer(old(s.peers), p) && now >= old(s.peers)[p].nextGetBlocksTime ==>
              && old(s.peers)[p].Known(BlockKind) != []
              && (WantsMore(s.states, s.peers[p]) ==> |old(s.states)| >= MAX_INV_COUNT)
  {
    close, getBlocks := false, false;
    ghost var ss := s.states;
    var ok, empty;
    ok, request, getBlocks, empty := s.ScheduleBlockInv(p, 2, now);
    SubsetSize(s.states.Keys, ss.Keys);
    if !ok {
      close, getBlocks := true, false;
    } else if getBlocks {
      GetBlocks(s, p, now);
    } else if request == [] {
      if p in s.peers && s.peers[p].IsAssigned() {
        BusyOwes(s.peers, p);
      }
      request, close := ScheduleTxs(s, p, now);
    } else {
      assert request[0] in request;
      s.SetNextGetBlocksTime(p, now);
    }
  }

  /** A busy peer owes something. */
  lemma BusyOwes(ps: Peers, p: nat)
    requires p in ps && ps[p].IsAssigned()
    ensures exists inv :: Asked(ps, p, inv)
  {
    if ps[p].txs.asked != {} {
      var h :| h in ps[p].txs.asked;
      assert Asked(ps, p, Inv(TxKind, h));
    } else {
      var h :| h in ps[p].blocks.asked;
      assert Asked(ps, p, Inv(BlockKind, h));
    }
  }

  // ---------------------------------------------------------------- storing blocks and their orphans

  const MAX_SUB_BLOCK_DELAYED_TIME := 120
  const MAX_REPEAT_BLOCK_TIME := 180

  /** What the chain answers for a block: its reference block is not usable yet, it repeats another
      block of the same producer, its work is refused, it is work that is kept for later, or it is
      handed to the dispatcher, which stores it, has it already, or rejects it. */
  datatype Fate = RefMissing | Repeated | WorkRefused | WorkCached | Stored | AlreadyHave | Rejected

  /** No state is new, and the blocks that are left have not changed. */
  ghost predicate Shrunk(ss: States, ss': States) {
    ss'.Keys <= ss.Keys && forall inv :: inv in ss' && inv.kind.BlockKind? ==> ss'[inv] == ss[inv]
  }

  ghost predicate Within(e': Edges, e: Edges) {
    forall p: Hash, c: Hash :: c in Next(e', p) ==> c in Next(e, p)
  }

  /** The blocks the chain holds when the i-th dispatch happens. */
  ghost function HeldBefore(stored: set<Hash>, judge: Hash -> Fate, dispatched: seq<Hash>, i: nat): set<Hash>
    requires i <= |dispatched|
  {
    stored + set j | 0 <= j < i && judge(dispatched[j]) in {Stored, AlreadyHave} :: dispatched[j]
  }

  /** Every dispatched block but the one the worklist started from waits, in the orphan index, for a
      block that the chain holds at that moment. */
  ghost predicate AncestorFirst(e: Edges, first: Hash, stored: set<Hash>, judge: Hash -> Fate, dispatched: seq<Hash>) {
    forall i :: 0 <= i < |dispatched| && dispatched[i] != first ==>
      exists p :: p in HeldBefore(stored, judge, dispatched, i) && dispatched[i] in Next(e, p)
  }

  /** Everything queued after the first block is an orphan child of a block the chain holds. */
  ghost predicate QueueOk(e: Edges, first: Hash, held: set<Hash>, queue: seq<Hash>) {
    forall h :: h in queue && h != first ==> exists p :: p in held && h in Next(e, p)
  }

  lemma HeldBeforeAppend(stored: set<Hash>, judge: Hash -> Fate, dispatched: seq<Hash>, h: Hash, i: nat)
    requires i <= |dispatched|
    ensures HeldBefore(stored, judge, dispatched + [h], i) == HeldBefore(stored, judge, dispatched, i)
  {
    assert forall j :: 0 <= j < i ==> (dispatched + [h])[j] == dispatched[j];
  }

  lemma HeldBeforeLast(stored: set<Hash>, judge: Hash -> Fate, dispatched: seq<Hash>, h: Hash)
    ensures HeldBefore(stored, judge, dispatched + [h], |dispatched| + 1) ==
            HeldBefore(stored, judge, dispatched, |dispatched|) +
                (if judge(h) in {Stored, AlreadyHave} then {h} else {})
  {
    var d := dispatched + [h];
    var l := HeldBefore(stored, judge, d, |d|);
    var r := HeldBefore(stored, judge, dispatched, |dispatched|) +
        (if judge(h) in {Stored, AlreadyHave} then {h} else {});
    forall x ensures x in l <==> x in r {
      if x in r && x !in stored {
        if x == h && judge(h) in {Stored, AlreadyHave} {
          assert d[|dispatched|] == h;
        } else {
          var j :| 0 <= j < |dispatched| && judge(dispatched[j]) in {Stored, AlreadyHave} && dispatched[j] == x;
          assert d[j] == x;
        }
      }
      if x in l && x !in stored {
        var j :| 0 <= j < |d| && judge(d[j]) in {Stored, AlreadyHave} && d[j] == x;
        if j < |dispatched| {
          assert dispatched[j] == x;
        }
      }
    }
  }

  lemma AncestorFirstAppend(e: Edges, first: Hash, stored: set<Hash>, judge: Hash -> Fate, dispatched: seq<Hash>,
      h: Hash)
    requires AncestorFirst(e, first, stored, judge, dispatched)
    requires h != first ==> exists p :: p in HeldBefore(stored, judge, dispatched, |dispatched|) && h in Next(e, p)
    ensures AncestorFirst(e, first, stored, judge, dispatched + [h])
  {
    var d := dispatched + [h];
    forall i | 0 <= i < |d| && d[i] != first
      ensures exists p :: p in HeldBefore(stored, judge, d, i) && d[i] in Next(e, p)
    {
      HeldBeforeAppend(stored, judge, dispatched, h, i);
      if i < |dispatched| {
        var p :| p in HeldBefore(stored, judge, dispatched, i) && dispatched[i] in Next(e, p);
        assert p in HeldBefore(stored, judge, d, i) && d[i] in Next(e, p);
      }
    }
  }

  lemma QueueGrows(e: Edges, first: Hash, held: set<Hash>, queue: seq<Hash>, h: Hash, e': Edges)
    requires QueueOk(e, first, held, queue) && Within(e', e)
    ensures QueueOk(e, first, held + {h}, queue + Next(e', h))
  {
    forall x | x in queue + Next(e', h) && x != first ensures exists p :: p in held + {h} && x in Next(e, p) {
      if x in queue {
        var p :| p in held && x in Next(e, p);
        assert p in held + {h} && x in Next(e, p);
      } else {
        assert h in held + {h} && x in Next(e, h);
      }
    }
  }

  ghost predicate HasBlock(ss: States, h: Hash) {
    Inv(BlockKind, h) in ss && ss[Inv(BlockKind, h)].received.Some?
  }

  /** Orphan children of a held block are queued or gone. */
  ghost predicate ChildrenQueued(e: Edges, ss: States, advanced: set<Hash>, queue: seq<Hash>) {
    forall d, c :: d in advanced && c in Next(e, d) ==> c in queue || Inv(BlockKind, c) !in ss
  }

  /** The chain has the block or takes it. */
  ghost predicate Welcome(h: Hash, stored: set<Hash>, judge: Hash -> Fate) {
    h in stored || judge(h) in {Stored, AlreadyHave}
  }

  /** No received orphan child of a block passed on is left behind, except cached work. */
  ghost predicate OnlyCachedLeft(e: Edges, ss: States, judge: Hash -> Fate, advanced: set<Hash>) {
    forall d, c :: d in advanced && c in Next(e, d) && HasBlock(ss, c) ==> judge(c) == WorkCached
  }

  /** Queue entries that have been worked off leave no received block behind but cached work. */
  ghost predicate WorkedOff(ss: States, judge: Hash -> Fate, queue: seq<Hash>) {
    forall h :: h in queue && HasBlock(ss, h) ==> judge(h) == WorkCached
  }

  lemma ChildrenQueuedStep(e: Edges, e': Edges, ss: States, ss': States, ss'': States, advanced: set<Hash>,
      queue: seq<Hash>, h: Hash)
    requires ChildrenQueued(e, ss', advanced, queue) && Pruned(e, e', ss, ss')
    requires ss''.Keys <= ss'.Keys
    ensures ChildrenQueued(e, ss'', advanced + {h}, queue + Next(e', h))
    ensures ChildrenQueued(e, ss'', advanced, queue)
  {
  }

  lemma FewerStates(ss: States, ss': States, inv: Inv)
    requires inv in ss && inv !in ss' && ss'.Keys <= ss.Keys
    ensures |ss'| < |ss|
  {
    SubsetSize(ss'.Keys, ss.Keys);
  }

  /** The verdicts that end the run: the block stays, for a while, and nothing after it is looked at. */
  ghost predicate Blocking(f: Fate) {
    f in {RefMissing, Repeated, WorkRefused}
  }

  /** A block that cannot go on is kept for 120 seconds more if its reference is missing, for 180 if it
      repeats another. */
  ghost function Postponed(ss: States, hash: Hash, f: Fate, now: int): States
    requires Inv(BlockKind, hash) in ss
  {
    var inv := Inv(BlockKind, hash);
    match f
    case RefMissing => ss[inv := ss[inv].(clearObjTime := now + 120)]
    case Repeated => ss[inv := ss[inv].(clearObjTime := now + 180)]
    case _ => ss
  }

  /** Works off one received block: a block the chain holds hands its orphan children to the queue,
      a dispatched block loses its inventory in any case, and a stored one lets transactions through. */
  method WorkOff(s: Scheduler, hash: Hash, txs: seq<BlockTx>, held: set<Hash>, judge: Hash -> Fate,
      pool: Hash -> TxFate,
                 now: int, queue: seq<Hash>)
    returns (stop: bool, dispatched: bool, holds: bool, queue': seq<Hash>)
    requires s.Valid() && HasBlock(s.states, hash)
    modifies s`states, s`peers, s`missPrevTx, s`recvTx, s.orphanBlock, s.orphanTx
    ensures s.Valid()
    ensures stop <==> hash !in held && Blocking(judge(hash))
    ensures stop ==> s.states == Postponed(old(s.states), hash, judge(hash), now) && queue' == queue
    ensures stop ==> s.orphanBlock.byPrev == old(s.orphanBlock.byPrev)
    ensures dispatched <==> hash !in held && judge(hash) in {Stored, AlreadyHave, Rejected}
    ensures holds <==> hash in held || judge(hash) in {Stored, AlreadyHave}
    ensures queue' == queue + (if holds then Next(old(s.orphanBlock.byPrev), hash) else [])
    ensures !stop ==> Shrunk(old(s.states), s.states)
    ensures !stop ==> Pruned(old(s.orphanBlock.byPrev), s.orphanBlock.byPrev, old(s.states), s.states)
    ensures holds || dispatched ==> Inv(BlockKind, hash) !in s.states && |s.states| < |old(s.states)|
    ensures forall inv :: inv in old(s.states) && inv !in s.states && inv.kind.BlockKind? ==> inv.hash == hash
    ensures !stop && !holds && !dispatched ==> s.states == old(s.states)
    ensures hash !in held && judge(hash) == Stored ==> TxsFollowed(s.states, s.recvTx, pool, txs)
  {
    stop, dispatched, holds, queue' := false, false, hash in held, queue;
    if !holds {
      match judge(hash)
      case RefMissing =>
        stop := true;
        var _ := s.SetDelayedClear(Inv(BlockKind, hash), now + MAX_SUB_BLOCK_DELAYED_TIME);
      case Repeated =>
        stop := true;
        var _ := s.SetDelayedClear(Inv(BlockKind, hash), now + MAX_REPEAT_BLOCK_TIME);
      case WorkRefused =>
        stop := true;
      case WorkCached =>
      case Stored =>
        dispatched, holds := true, true;
        FollowUp(s, txs, pool, now);
      case AlreadyHave =>
        dispatched, holds := true, true;
      case Rejected =>
        dispatched := true;
    }
    if holds {
      queue' := s.GetNextBlock(hash, queue);
    }
    if holds || dispatched {
      var _, _ := s.RemoveInv(Inv(BlockKind, hash));
      FewerStates(old(s.states), s.states, Inv(BlockKind, hash));
    }
  }

  /** What the worklist keeps while it runs. */
  ghost predicate Progress(e: Edges, first: Hash, stored: set<Hash>, judge: Hash -> Fate,
                           ss: States, held: set<Hash>, queue: seq<Hash>, dispatched: seq<Hash>) {
    && held == HeldBefore(stored, judge, dispatched, |dispatched|)
    && AncestorFirst(e, first, stored, judge, dispatched)
    && QueueOk(e, first, held, queue)
    && NoDup(dispatched)
    && (forall d :: d in dispatched ==> Inv(BlockKind, d) !in ss)
  }

  lemma ProgressStep(e: Edges, first: Hash, stored: set<Hash>, judge: Hash -> Fate, ss: States, held: set<Hash>,
                     queue: seq<Hash>, dispatched: seq<Hash>, h: Hash, e': Edges, ss': States)
    requires Progress(e, first, stored, judge, ss, held, queue, dispatched)
    requires Within(e', e) && ss'.Keys <= ss.Keys && h in queue && Inv(BlockKind, h) in ss && Inv(BlockKind, h) !in ss'
    ensures h in held ==> Progress(e, first, stored, judge, ss', held, queue + Next(e', h), dispatched)
    ensures judge(h) in {Stored, AlreadyHave} ==> Progress(e, first, stored, judge, ss', held + {h}, queue +
            Next(e', h), dispatched + [h])
    ensures judge(h) == Rejected ==> Progress(e, first, stored, judge, ss', held, queue, dispatched + [h])
  {
    HeldBeforeLast(stored, judge, dispatched, h);
    AncestorFirstAppend(e, first, stored, judge, dispatched, h);
    QueueGrows(e, first, held, queue, h, e');
    if h in held {
      assert held + {h} == held;
    }
  }

  lemma WorkedOffStep(ss: States, ss': States, judge: Hash -> Fate, queue: seq<Hash>, queue': seq<Hash>, i: nat)
    requires i < |queue| && queue <= queue' && Shrunk(ss, ss') && WorkedOff(ss, judge, queue[..i])
    requires HasBlock(ss', queue[i]) ==> judge(queue[i]) == WorkCached
    ensures WorkedOff(ss', judge, queue'[..i+1])
  {
    assert queue'[..i+1] == queue[..i] + [queue[i]];
  }

  lemma PrunedWithin(e: Edges, e': Edges, ss: States, ss': States)
    requires Pruned(e, e', ss, ss')
    ensures Within(e', e)
  {
    forall p: Hash, c: Hash | c in Next(e', p) ensures c in Next(e, p) {
      var inv := Inv(BlockKind, c);
    }
  }

  /** Whatever received block has gone was passed on or rejected. */
  ghost predicate GoneIsDone(ss: States, ss': States, judge: Hash -> Fate, advanced: set<Hash>) {
    forall h :: HasBlock(ss, h) && !HasBlock(ss', h) ==> h in advanced || judge(h) == Rejected
  }

  /** `h` starts the worklist or waits, directly or through others, for the block that does. */
  ghost predicate FromFirst(e: Edges, first: Hash, h: Hash) {
    h == first || Reaches(e, first, h)
  }

  /** Where the queue comes from: after the first block only orphan children of blocks passed on. A block
      passed on is gone, and a received one that has gone was passed on or handed to the dispatcher. */
  ghost predicate Trace(e: Edges, ss: States, first: Hash, ss': States, queue: seq<Hash>, dispatched: seq<Hash>,
      advanced: set<Hash>) {
    && QueueOk(e, first, advanced, queue)
    && (forall h :: h in queue ==> FromFirst(e, first, h))
    && (forall d :: d in advanced ==> Inv(BlockKind, d) !in ss')
    && (forall h :: HasBlock(ss, h) && !HasBlock(ss', h) ==> h in advanced || h in dispatched)
  }

  lemma FromFirstChild(e: Edges, first: Hash, h: Hash, c: Hash)
    requires FromFirst(e, first, h) && c in Next(e, h)
    ensures FromFirst(e, first, c)
  {
    if h == first {
      ReachesChild(e, first, c);
    } else {
      ReachesFurther(e, first, h, c);
    }
  }

  lemma TraceStep(e: Edges, ss: States, first: Hash, ss': States, queue: seq<Hash>, dispatched: seq<Hash>,
      advanced: set<Hash>, h: Hash, sent: bool, holds: bool, e': Edges, ss'': States)
    requires Trace(e, ss, first, ss', queue, dispatched, advanced) && h in queue
    requires Within(e', e) && Shrunk(ss', ss'') && (holds || sent ==> Inv(BlockKind, h) !in ss'')
    requires forall inv :: inv in ss' && inv !in ss'' && inv.kind.BlockKind? ==> inv.hash == h
    requires !holds && !sent ==> ss'' == ss'
    ensures Trace(e, ss, first, ss'', queue + (if holds then Next(e', h) else []),
              if sent then dispatched + [h] else dispatched, if holds then advanced + {h} else advanced)
  {
    QueueGrows(e, first, advanced, queue, h, e');
    forall c | c in Next(e', h) ensures FromFirst(e, first, c) {
      FromFirstChild(e, first, h, c);
    }
    if !holds {
      assert queue + [] == queue;
    }
  }

  /** A received block the run cannot get past: the chain does not hold it and its verdict ends the run,
      and it starts the worklist or waits for a block that was passed on. */
  ghost predicate Obstacle(e: Edges, ss: States, first: Hash, judge: Hash -> Fate, held: set<Hash>,
      advanced: set<Hash>, h: Hash) {
    && HasBlock(ss, h) && h !in held && Blocking(judge(h))
    && (h == first || exists p :: p in advanced && h in Next(e, p))
  }

  /** When the queue is worked off, there was none. */
  lemma NoObstacle(e: Edges, ss: States, first: Hash, stored: set<Hash>, judge: Hash -> Fate, e': Edges, ss': States,
      held: set<Hash>, queue: seq<Hash>, dispatched: seq<Hash>, advanced: set<Hash>, h: Hash)
    requires Worklist(e, ss, first, stored, judge, e', ss', held, queue, |queue|, dispatched, advanced)
    ensures !Obstacle(e, ss, first, judge, held, advanced, h)
  {
    assert queue[..|queue|] == queue && queue[0] == first;
  }

  /** An entry that stops the run is an obstacle. */
  lemma StoppedByObstacle(e: Edges, ss: States, first: Hash, stored: set<Hash>, judge: Hash -> Fate, e': Edges,
      ss': States, held: set<Hash>, queue: seq<Hash>, i: nat, dispatched: seq<Hash>, advanced: set<Hash>)
    requires Worklist(e, ss, first, stored, judge, e', ss', held, queue, i, dispatched, advanced)
    requires Trace(e, ss, first, ss', queue, dispatched, advanced)
    requires i < |queue| && HasBlock(ss', queue[i]) && queue[i] !in held && Blocking(judge(queue[i]))
    ensures Obstacle(e, ss, first, judge, held, advanced, queue[i]) && FromFirst(e, first, queue[i])
  {
    var h := queue[i];
    assert h in queue;
    assert HasBlock(ss, h);
    if h != first {
      var p :| p in advanced && h in Next(e, p);
    }
  }

  /** Postponing a block leaves every statement about which blocks are there as it is. */
  lemma PostponedSame(ss: States, hash: Hash, f: Fate, now: int)
    requires Inv(BlockKind, hash) in ss
    ensures Postponed(ss, hash, f, now).Keys == ss.Keys
    ensures forall h :: HasBlock(Postponed(ss, hash, f, now), h) <==> HasBlock(ss, h)
  {
  }

  /** The worklist's loop invariant; e and ss are the orphan index and the states it started with. */
  ghost predicate Worklist(e: Edges, ss: States, first: Hash, stored: set<Hash>, judge: Hash -> Fate,
                           e': Edges, ss': States, held: set<Hash>, queue: seq<Hash>, i: nat, dispatched: seq<Hash>,
                               advanced: set<Hash>) {
    && i <= |queue| && [first] <= queue
    && Shrunk(ss, ss') && Pruned(e, e', ss, ss')
    && Progress(e, first, stored, judge, ss', held, queue, dispatched)
    && ChildrenQueued(e, ss', advanced, queue)
    && WorkedOff(ss', judge, queue[..i])
    && GoneIsDone(ss, ss', judge, advanced)
    && (i >= 1 && HasBlock(ss, first) && Welcome(first, stored, judge) ==>
        first in advanced)
    && advanced <= held <= advanced + stored
  }

  lemma WorklistStep(e: Edges, ss: States, first: Hash, stored: set<Hash>, judge: Hash -> Fate,
                     e': Edges, ss': States, held: set<Hash>, queue: seq<Hash>, i: nat, dispatched: seq<Hash>,
                         advanced: set<Hash>,
                     sent: bool, holds: bool, e'': Edges, ss'': States)
    requires Worklist(e, ss, first, stored, judge, e', ss', held, queue, i, dispatched, advanced)
    requires i < |queue| && HasBlock(ss', queue[i]) && Shrunk(ss', ss'') && Pruned(e', e'', ss', ss'')
    requires sent <==> queue[i] !in held && judge(queue[i]) in {Stored, AlreadyHave, Rejected}
    requires holds <==> queue[i] in held || judge(queue[i]) in {Stored, AlreadyHave}
    requires holds || sent ==> Inv(BlockKind, queue[i]) !in ss''
    requires forall inv :: inv in ss' && inv !in ss'' && inv.kind.BlockKind? ==> inv.hash == queue[i]
    requires !holds && !sent ==> judge(queue[i]) == WorkCached && ss'' == ss'
    ensures Worklist(e, ss, first, stored, judge, e'', ss'',
                     if holds then held + {queue[i]} else held,
                     queue + (if holds then Next(e', queue[i]) else []), i + 1,
                     if sent then dispatched + [queue[i]] else dispatched,
                     if holds then advanced + {queue[i]} else advanced)
  {
    var h := queue[i];
    var queue' := queue + (if holds then Next(e', h) else []);
    PrunedTwice(e, e', e'', ss, ss', ss'');
    PrunedWithin(e, e', ss, ss');
    ChildrenQueuedStep(e, e', ss, ss', ss'', advanced, queue, h);
    WorkedOffStep(ss', ss'', judge, queue, queue', i);
    if holds || sent {
      ProgressStep(e, first, stored, judge, ss', held, queue, dispatched, h, e', ss'');
    } else {
      assert queue' == queue;
    }
    if h in held {
      assert held + {h} == held;
    }
    assert [first] <= queue';
  }

  lemma WorklistSkip(e: Edges, ss: States, first: Hash, stored: set<Hash>, judge: Hash -> Fate,
                     e': Edges, ss': States, held: set<Hash>, queue: seq<Hash>, i: nat, dispatched: seq<Hash>,
                         advanced: set<Hash>)
    requires Worklist(e, ss, first, stored, judge, e', ss', held, queue, i, dispatched, advanced)
    requires i < |queue| && !HasBlock(ss', queue[i]) && (i == 0 ==> ss' == ss)
    ensures Worklist(e, ss, first, stored, judge, e', ss', held, queue, i + 1, dispatched, advanced)
  {
    WorkedOffStep(ss', ss', judge, queue, queue, i);
  }

  /** What the worklist keeps, in full. */
  ghost predicate Working(e: Edges, ss: States, first: Hash, stored: set<Hash>, judge: Hash -> Fate,
      e': Edges, ss': States, held: set<Hash>, queue: seq<Hash>, i: nat, dispatched: seq<Hash>, advanced: set<Hash>) {
    && Worklist(e, ss, first, stored, judge, e', ss', held, queue, i, dispatched, advanced)
    && Trace(e, ss, first, ss', queue, dispatched, advanced)
  }

  /** Takes the i-th entry off the queue, unless it is an obstacle. */
  method TakeNext(s: Scheduler, judge: Hash -> Fate, pool: Hash -> TxFate, now: int, queue: seq<Hash>, i: nat,
                  dispatched: seq<Hash>, held: set<Hash>,
                  ghost e: Edges, ghost ss: States, ghost first: Hash, ghost stored: set<Hash>,
                      ghost advanced: set<Hash>)
    returns (stop: bool, queue': seq<Hash>, dispatched': seq<Hash>, held': set<Hash>, ghost advanced': set<Hash>)
    requires s.Valid() && i < |queue| && (i == 0 ==> s.states == ss)
    requires Working(e, ss, first, stored, judge, s.orphanBlock.byPrev, s.states, held, queue, i, dispatched, advanced)
    modifies s`states, s`peers, s`missPrevTx, s`recvTx, s.orphanBlock, s.orphanTx
    ensures s.Valid()
    ensures !stop ==> Working(e, ss, first, stored, judge, s.orphanBlock.byPrev, s.states, held', queue', i + 1,
            dispatched', advanced')
    ensures stop ==> dispatched' == dispatched && held' == held && advanced' == advanced && queue' == queue
    ensures stop ==> HasBlock(old(s.states), queue[i])
    ensures stop ==> s.states == Postponed(old(s.states), queue[i], judge(queue[i]), now)
    ensures stop ==> Obstacle(e, ss, first, judge, held, advanced, queue[i]) && FromFirst(e, first, queue[i])
    ensures !stop ==> |s.states| < |old(s.states)| || (s.states == old(s.states) && queue' == queue)
  {
    stop, queue', dispatched', held', advanced' := false, queue, dispatched, held, advanced;
    var hash := queue[i];
    var block := s.GetBlock(hash);
    if block.None? {
      WorklistSkip(e, ss, first, stored, judge, s.orphanBlock.byPrev, s.states, held, queue, i, dispatched, advanced);
      return;
    }
    ghost var ss', e' := s.states, s.orphanBlock.byPrev;
    var sent, holds;
    stop, sent, holds, queue' := WorkOff(s, hash, block.value.txs, held, judge, pool, now, queue);
    if stop {
      StoppedByObstacle(e, ss, first, stored, judge, e', ss', held, queue, i, dispatched, advanced);
      return;
    }
    WorkingStep(e, ss, first, stored, judge, e', ss', held, queue, i, dispatched, advanced, sent, holds,
        s.orphanBlock.byPrev, s.states);
    if sent {
      dispatched' := dispatched + [hash];
    }
    if holds {
      held' := held + {hash};
      advanced' := advanced + {hash};
    }
  }

  lemma WorkingStep(e: Edges, ss: States, first: Hash, stored: set<Hash>, judge: Hash -> Fate,
      e': Edges, ss': States, held: set<Hash>, queue: seq<Hash>, i: nat, dispatched: seq<Hash>, advanced: set<Hash>,
      sent: bool, holds: bool, e'': Edges, ss'': States)
    requires Working(e, ss, first, stored, judge, e', ss', held, queue, i, dispatched, advanced)
    requires i < |queue| && HasBlock(ss', queue[i]) && Shrunk(ss', ss'') && Pruned(e', e'', ss', ss'')
    requires sent <==> queue[i] !in held && judge(queue[i]) in {Stored, AlreadyHave, Rejected}
    requires holds <==> queue[i] in held || judge(queue[i]) in {Stored, AlreadyHave}
    requires holds || sent ==> Inv(BlockKind, queue[i]) !in ss''
    requires forall inv :: inv in ss' && inv !in ss'' && inv.kind.BlockKind? ==> inv.hash == queue[i]
    requires !holds && !sent ==> judge(queue[i]) == WorkCached && ss'' == ss'
    ensures Working(e, ss, first, stored, judge, e'', ss'',
                    if holds then held + {queue[i]} else held,
                    queue + (if holds then Next(e', queue[i]) else []), i + 1,
                    if sent then dispatched + [queue[i]] else dispatched,
                    if holds then advanced + {queue[i]} else advanced)
  {
    WorklistStep(e, ss, first, stored, judge, e', ss', held, queue, i, dispatched, advanced, sent, holds, e'', ss'');
    PrunedWithin(e, e', ss, ss');
    TraceStep(e, ss, first, ss', queue, dispatched, advanced, queue[i], sent, holds, e', ss'');
  }

  /** How far a run came: what it took off the queue is gone, apart from cached work, and the orphan
      children of all blocks passed on are gone or were queued. What has gone was passed on, or given to
      the dispatcher and rejected. */
  ghost predicate Outcome(e: Edges, ss: States, first: Hash, judge: Hash -> Fate, ss': States, done: seq<Hash>,
      left: seq<Hash>, dispatched: seq<Hash>, advanced: set<Hash>) {
    && [first] <= done + left
    && ChildrenQueued(e, ss', advanced, done + left) && WorkedOff(ss', judge, done)
    && GoneIsDone(ss, ss', judge, advanced)
    && Trace(e, ss, first, ss', done + left, dispatched, advanced)
  }

  lemma OutcomeOf(e: Edges, ss: States, first: Hash, stored: set<Hash>, judge: Hash -> Fate, e': Edges, ss': States,
      held: set<Hash>, queue: seq<Hash>, i: nat, dispatched: seq<Hash>, advanced: set<Hash>, ss'': States)
    requires Working(e, ss, first, stored, judge, e', ss', held, queue, i, dispatched, advanced)
    requires ss''.Keys == ss'.Keys && forall h :: HasBlock(ss'', h) <==> HasBlock(ss', h)
    ensures Outcome(e, ss, first, judge, ss'', queue[..i], queue[i..], dispatched, advanced)
  {
    assert queue[..i] + queue[i..] == queue;
  }

  /** Stores a received block and then everything that was waiting for it. The loop ends because each
      growth of the queue deletes a state. Dispatch is ancestor-first and never repeats. The run is
      stopped exactly when it meets an obstacle, which then is the next entry of the queue; if it is not
      stopped, no orphan child of a held block is left behind except cached work. */
  method AddNewBlock(s: Scheduler, first: Hash, stored: set<Hash>, judge: Hash -> Fate, pool: Hash -> TxFate, now: int)
    returns (dispatched: seq<Hash>, held: set<Hash>, stopped: bool, ghost advanced: set<Hash>, ghost done: seq<Hash>,
      ghost left: seq<Hash>)
    requires s.Valid()
    modifies s`states, s`peers, s`missPrevTx, s`recvTx, s.orphanBlock, s.orphanTx
    ensures s.Valid()
    ensures held == HeldBefore(stored, judge, dispatched, |dispatched|)
    ensures AncestorFirst(old(s.orphanBlock.byPrev), first, stored, judge, dispatched)
    ensures NoDup(dispatched)
    ensures !stopped && HasBlock(old(s.states), first) && Welcome(first, stored, judge) ==> first in advanced
    ensures !stopped ==> OnlyCachedLeft(old(s.orphanBlock.byPrev), s.states, judge, advanced)
    ensures advanced <= held <= advanced + stored
    ensures Outcome(old(s.orphanBlock.byPrev), old(s.states), first, judge, s.states, done, left, dispatched, advanced)
    ensures stopped <==>
              exists h :: Obstacle(old(s.orphanBlock.byPrev), old(s.states), first, judge, held, advanced, h)
    ensures stopped ==>
              left != [] && HasBlock(s.states, left[0]) &&
              Obstacle(old(s.orphanBlock.byPrev), old(s.states), first, judge, held, advanced, left[0])
    ensures !stopped ==> left == []
    ensures (forall h :: FromFirst(old(s.orphanBlock.byPrev), first, h) ==> !Blocking(judge(h))) ==> !stopped
  {
    ghost var e, ss := s.orphanBlock.byPrev, s.states;
    var queue := [first];
    dispatched, held, stopped, advanced := [], stored, false, {};
    assert held == HeldBefore(stored, judge, dispatched, 0);
    var i := 0;
    while i < |queue|
      invariant s.Valid() && (i == 0 ==> s.states == ss) && i <= |queue|
      invariant Working(e, ss, first, stored, judge, s.orphanBlock.byPrev, s.states, held, queue, i, dispatched,
                advanced)
      decreases |s.states|, |queue| - i
    {
      ghost var ss', e' := s.states, s.orphanBlock.byPrev;
      stopped, queue, dispatched, held, advanced := TakeNext(s, judge, pool, now, queue, i, dispatched, held, e, ss,
          first, stored, advanced);
      if stopped {
        done, left := queue[..i], queue[i..];
        PostponedSame(ss', queue[i], judge(queue[i]), now);
        assert left[0] == queue[i];
        OutcomeOf(e, ss, first, stored, judge, e', ss', held, queue, i, dispatched, advanced, s.states);
        return;
      }
      i := i + 1;
    }
    done, left := queue, [];
    RanThrough(e, ss, first, stored, judge, s.orphanBlock.byPrev, s.states, held, queue, dispatched, advanced);
  }

  lemma RanThrough(e: Edges, ss: States, first: Hash, stored: set<Hash>, judge: Hash -> Fate, e': Edges, ss': States,
      held: set<Hash>, queue: seq<Hash>, dispatched: seq<Hash>, advanced: set<Hash>)
    requires Working(e, ss, first, stored, judge, e', ss', held, queue, |queue|, dispatched, advanced)
    ensures Outcome(e, ss, first, judge, ss', queue, [], dispatched, advanced)
    ensures OnlyCachedLeft(e, ss', judge, advanced)
    ensures forall h :: !Obstacle(e, ss, first, judge, held, advanced, h)
  {
    OutcomeOf(e, ss, first, stored, judge, e', ss', held, queue, |queue|, dispatched, advanced, ss');
    assert queue[..|queue|] == queue && queue[|queue|..] == [];
    forall h ensures !Obstacle(e, ss, first, judge, held, advanced, h) {
      NoObstacle(e, ss, first, stored, judge, e', ss', held, queue, dispatched, advanced, h);
    }
  }

  // ---------------------------------------------------------------- where to start

  ghost function PrevOf(ss: States, h: Hash): Hash
    requires HasBlock(ss, h)
  {
    match ss[Inv(BlockKind, h)].received.value
    case BlockObject(prev, _) => prev
    case TxObject(_, _) => 0
  }

  /** A chain of received blocks, each waiting in the orphan index for the one before it. */
  ghost predicate WaitingChain(ss: States, e: Edges, path: seq<Hash>) {
    && path != []
    && (forall i :: 0 <= i < |path| ==> HasBlock(ss, path[i]))
    && (forall i :: 0 <= i < |path| - 1 ==> PrevOf(ss, path[i+1]) == path[i] && path[i+1] in Next(e, path[i]))
  }

  /** The waiting chain from `first` up to `hash`. */
  ghost predicate Descent(ss: States, e: Edges, hash: Hash, first: Hash, path: seq<Hash>) {
    WaitingChain(ss, e, path) && path[0] == first && path[|path|-1] == hash
  }

  lemma DescentStep(ss: States, e: Edges, hash: Hash, first: Hash, path: seq<Hash>, block: Hash)
    requires HasBlock(ss, block) && (path == [] ==> block == hash)
    requires path != [] ==> Descent(ss, e, hash, first, path) && block == PrevOf(ss, first) && first in Next(e, block)
    ensures Descent(ss, e, hash, block, [block] + path)
  {
    var path' := [block] + path;
    forall i | 0 <= i < |path'| - 1 ensures PrevOf(ss, path'[i+1]) == path'[i] && path'[i+1] in Next(e, path'[i]) {
      if i > 0 {
        assert path'[i] == path[i-1] && path'[i+1] == path[i-1+1];
      }
    }
  }

  /** Walks from a received block down to its earliest received ancestor joined to it by orphan
      edges. The rank stands for the fact that hashes cannot name each other in a circle. */
  method CheckPrevBlock(s: Scheduler, hash: Hash, ghost rank: Hash -> nat)
    returns (found: bool, first: Hash, prev: Hash, ghost path: seq<Hash>)
    requires s.Valid()
    requires forall h :: HasBlock(s.states, h) ==> rank(PrevOf(s.states, h)) < rank(h)
    ensures found <==> first != hash
    ensures hash == 0 || !HasBlock(s.states, hash) ==> first == 0 && prev == 0
    ensures hash != 0 && HasBlock(s.states, hash) ==>
      && Descent(s.states, s.orphanBlock.byPrev, hash, first, path) && prev == PrevOf(s.states, first)
      && (prev == 0 || !HasBlock(s.states, prev) || first !in Next(s.orphanBlock.byPrev, prev))
  {
    first, prev, path := 0, 0, [];
    var block := hash;
    while block != 0
      invariant path == [] ==> first == 0 && prev == 0 && block == hash
      invariant path != [] ==>
        hash != 0 && Descent(s.states, s.orphanBlock.byPrev, hash, first, path) && prev == PrevOf(s.states, first)
      invariant path != [] ==> block == prev && first in Next(s.orphanBlock.byPrev, prev)
      decreases rank(block)
    {
      var b := s.GetBlock(block);
      if b.None? {
        break;
      }
      DescentStep(s.states, s.orphanBlock.byPrev, hash, first, path, block);
      first, prev := block, b.value.prev;
      path := [block] + path;
      var next := s.GetNextBlock(prev, []);
      if next == [] || block !in next {
        break;
      }
      block := prev;
    }
    found := first != hash;
  }

  /** The start that CheckPrevBlock finds is right: if the worklist runs through and every block of
      the waiting chain is one the chain takes, all of them end up held. */
  lemma {:induction false} WaitingChainIsStored(ss: States, e: Edges, ss': States, judge: Hash -> Fate,
      advanced: set<Hash>, path: seq<Hash>, i: nat)
    requires WaitingChain(ss, e, path) && i < |path|
    requires forall h :: h in path ==> judge(h) in {Stored, AlreadyHave}
    requires path[0] in advanced && GoneIsDone(ss, ss', judge, advanced)
    requires OnlyCachedLeft(e, ss', judge, advanced)
    ensures path[i] in advanced
  {
    if i > 0 {
      WaitingChainIsStored(ss, e, ss', judge, advanced, path, i - 1);
      assert path[i-1+1] in Next(e, path[i-1]);
      assert path[i] in path;
      assert !HasBlock(ss', path[i]);
      assert HasBlock(ss, path[i]);
    }
  }

  lemma WaitingChainReaches(ss: States, e: Edges, path: seq<Hash>, i: nat)
    requires WaitingChain(ss, e, path) && 1 <= i < |path|
    ensures Reaches(e, path[0], path[i])
  {
    assert Path(e, path[..i+1]);
  }

  ghost function WithEdge(e: Edges, prev: Hash, hash: Hash): Edges {
    e[prev := Next(e, prev) + [hash]]
  }

  /** The whole waiting chain has been given to the chain. */
  ghost predicate AllHeld(path: seq<Hash>, held: set<Hash>) {
    forall h :: h in path ==> h in held
  }

  ghost predicate AllTaken(path: seq<Hash>, judge: Hash -> Fate) {
    forall h :: h in path ==> judge(h) in {Stored, AlreadyHave}
  }

  ghost predicate AllGone(path: seq<Hash>, ss: States) {
    forall h :: h in path ==> Inv(BlockKind, h) !in ss
  }

  /** The run met a received block that waits for `first`, or is it, and could not get past it. */
  ghost predicate Halted(e: Edges, ss: States, first: Hash, judge: Hash -> Fate, held: set<Hash>) {
    exists h :: FromFirst(e, first, h) && HasBlock(ss, h) && h !in held && Blocking(judge(h))
  }

  /** Attaches a waiting chain at its start. It is attached as a whole if the chain takes all of it,
      unless another block that waits for the start ends the run. */
  method AttachChain(s: Scheduler, first: Hash, stored: set<Hash>, judge: Hash -> Fate, pool: Hash -> TxFate, now: int,
                     ghost path: seq<Hash>)
    returns (dispatched: seq<Hash>, held: set<Hash>, stopped: bool)
    requires s.Valid() && WaitingChain(s.states, s.orphanBlock.byPrev, path) && path[0] == first
    modifies s`states, s`peers, s`missPrevTx, s`recvTx, s.orphanBlock, s.orphanTx
    ensures s.Valid() && NoDup(dispatched) && held == HeldBefore(stored, judge, dispatched, |dispatched|)
    ensures AncestorFirst(old(s.orphanBlock.byPrev), first, stored, judge, dispatched)
    ensures !stopped && AllTaken(path, judge) ==> AllHeld(path, held)
    ensures stopped ==> Halted(old(s.orphanBlock.byPrev), old(s.states), first, judge, held)
  {
    ghost var ss, e := s.states, s.orphanBlock.byPrev;
    ghost var advanced, done, left;
    dispatched, held, stopped, advanced, done, left := AddNewBlock(s, first, stored, judge, pool, now);
    if !stopped && AllTaken(path, judge) {
      assert path[0] in path;
      forall i | 0 <= i < |path| ensures path[i] in held {
        WaitingChainIsStored(ss, e, s.states, judge, advanced, path, i);
      }
    }
  }

  /** Drops a waiting chain from its start. */
  method DropChain(s: Scheduler, first: Hash, ghost path: seq<Hash>) returns (misbehave: set<nat>)
    requires s.Valid() && WaitingChain(s.states, s.orphanBlock.byPrev, path) && path[0] == first
    modifies s`states, s`peers, s`missPrevTx, s`recvTx, s.orphanBlock, s.orphanTx
    ensures s.Valid() && AllGone(path, s.states)
  {
    ghost var ss, e := s.states, s.orphanBlock.byPrev;
    misbehave := s.InvalidateBlock(first);
    forall i | 0 <= i < |path| ensures Inv(BlockKind, path[i]) !in s.states {
      if i > 0 {
        WaitingChainReaches(ss, e, path, i);
      }
    }
  }

  /** What becomes of a block filed as an orphan. If the start of its waiting chain can be attached, the
      whole chain is, unless the run is halted; if the start belongs to another fork, the whole chain is
      dropped; if its parent is unknown, nothing is touched. */
  ghost predicate OrphanOutcome(e: Edges, ss: States, here: set<Hash>, stored: set<Hash>, judge: Hash -> Fate,
      path: seq<Hash>, e': Edges, ss': States, dispatched: seq<Hash>, held: set<Hash>, stopped: bool)
    requires WaitingChain(ss, e, path)
  {
    var start := PrevOf(ss, path[0]);
    && (stopped ==> Halted(e, ss, path[0], judge, held))
    && (!stopped && start in stored && start in here && AllTaken(path, judge) ==> AllHeld(path, held))
    && (start in stored && start !in here ==> AllGone(path, ss') && dispatched == [])
    && (start !in stored ==> e' == e && ss' == ss && dispatched == [])
  }

  /** A delivered block whose parent the chain does not have: it is filed as an orphan, and the start of
      its waiting chain is looked up. `here` are the stored blocks of this fork. */
  method OnOrphanBlock(s: Scheduler, hash: Hash, prev: Hash, here: set<Hash>, stored: set<Hash>,
                       judge: Hash -> Fate, pool: Hash -> TxFate, now: int, ghost rank: Hash -> nat)
    returns (dispatched: seq<Hash>, held: set<Hash>, stopped: bool, misbehave: set<nat>, ghost path: seq<Hash>)
    requires s.Valid() && hash != 0 && HasBlock(s.states, hash) && PrevOf(s.states, hash) == prev && prev !in stored
    requires forall h :: HasBlock(s.states, h) ==> rank(PrevOf(s.states, h)) < rank(h)
    modifies s`states, s`peers, s`missPrevTx, s`recvTx, s.orphanBlock, s.orphanTx
    ensures s.Valid() && NoDup(dispatched)
    ensures WaitingChain(old(s.states), WithEdge(old(s.orphanBlock.byPrev), prev, hash), path) && path[|path|-1] == hash
    ensures OrphanOutcome(WithEdge(old(s.orphanBlock.byPrev), prev, hash), old(s.states), here, stored, judge, path,
              s.orphanBlock.byPrev, s.states, dispatched, held, stopped)
  {
    s.AddOrphanBlockPrev(hash, prev);
    var found, first, before;
    found, first, before, path := CheckPrevBlock(s, hash, rank);
    dispatched, held, stopped, misbehave := [], stored, false, {};
    if found && before in stored {
      if before in here {
        dispatched, held, stopped := AttachChain(s, first, stored, judge, pool, now, path);
      } else {
        misbehave := DropChain(s, first, path);
      }
    }
  }

  /** A delivered block: attached to a parent in this fork, dropped with everything that waits for it
      when the parent is in another fork, and filed as an orphan when the parent is unknown. */
  method OnBlock(s: Scheduler, hash: Hash, prev: Hash, here: set<Hash>, stored: set<Hash>,
                 judge: Hash -> Fate, pool: Hash -> TxFate, now: int, ghost rank: Hash -> nat)
    returns (dispatched: seq<Hash>, held: set<Hash>, stopped: bool, misbehave: set<nat>, ghost path: seq<Hash>)
    requires s.Valid() && hash != 0 && HasBlock(s.states, hash) && PrevOf(s.states, hash) == prev
    requires forall h :: HasBlock(s.states, h) ==> rank(PrevOf(s.states, h)) < rank(h)
    modifies s`states, s`peers, s`missPrevTx, s`recvTx, s.orphanBlock, s.orphanTx
    ensures s.Valid() && NoDup(dispatched)
    ensures prev in stored && prev in here && !stopped && judge(hash) in {Stored, AlreadyHave} ==> hash in held
    ensures prev in stored && stopped ==> Halted(old(s.orphanBlock.byPrev), old(s.states), hash, judge, held)
    ensures prev in stored && prev !in here ==>
      forall h :: h == hash || Reaches(old(s.orphanBlock.byPrev), hash, h) ==> Inv(BlockKind, h) !in s.states
    ensures prev !in stored ==>
      && WaitingChain(old(s.states), WithEdge(old(s.orphanBlock.byPrev), prev, hash), path) && path[|path|-1] == hash
      && OrphanOutcome(WithEdge(old(s.orphanBlock.byPrev), prev, hash), old(s.states), here, stored, judge, path,
           s.orphanBlock.byPrev, s.states, dispatched, held, stopped)
  {
    dispatched, held, stopped, misbehave, path := [], stored, false, {}, [hash];
    if prev !in stored {
      dispatched, held, stopped, misbehave, path := OnOrphanBlock(s, hash, prev, here, stored, judge, pool, now, rank);
    } else if prev in here {
      dispatched, held, stopped := AttachChain(s, hash, stored, judge, pool, now, [hash]);
    } else {
      misbehave := s.InvalidateBlock(hash);
    }
  }

  // ---------------------------------------------------------------- any run of events

  /** The steps the handlers are made of. Verdicts come with the event: a block that waits for its
      reference today may be stored tomorrow. */
  datatype Event =
    | Announce(peer: nat, inv: Inv, now: int)
    | Idle(peer: nat, now: int)
    | Deliver(peer: nat, inv: Inv, obj: Object, now: int)
    | Refuse(peer: nat, inv: Inv)
    | Leave(peer: nat)
    | Orphaned(hash: Hash, prev: Hash)
    | OrphanedTx(txid: Hash, prev: Hash)
    | MissingTx(txid: Hash)
    | Attach(first: Hash, stored: set<Hash>, judge: Hash -> Fate, pool: Hash -> TxFate, now: int)
    | AttachTx(txid: Hash, pool: Hash -> TxFate, now: int)
    | Delay(inv: Inv, until: int)
    | Invalid(hash: Hash)
    | InvalidTx(txid: Hash)
    | Forget(inv: Inv)

  /** Events come from real peers, and an object is of the kind that was announced. */
  ghost predicate WellFormed(e: Event) {
    && (e.Announce? || e.Idle? || e.Deliver? || e.Refuse? || e.Leave? ==> e.peer != 0)
    && (e.Deliver? ==> (e.obj.BlockObject? <==> e.inv.kind.BlockKind?))
  }

  /** Events about peers. */
  method HandlePeer(s: Scheduler, e: Event)
    requires s.Valid() && WellFormed(e) && (e.Announce? || e.Idle? || e.Deliver? || e.Refuse? || e.Leave?)
    modifies s`states, s`peers, s`missPrevTx, s`recvTx, s.orphanBlock, s.orphanTx
    ensures s.Valid()
    ensures e.Leave? ==> forall inv :: inv in s.states ==>
      e.peer !in s.states[inv].known && s.states[inv].assignee != e.peer
  {
    match e
    case Announce(p, inv, now) => var _ := s.AddNewInv(inv, p, now);
    case Idle(p, now) => var _, _, _ := SchedulePeerInv(s, p, now);
    case Deliver(p, inv, obj, now) => var _, _ := s.Receive(p, inv, obj, now);
    case Refuse(p, inv) => var _ := s.CancelAssignedInv(p, inv);
    case Leave(p) => var _ := s.RemovePeer(p);
  }

  method Handle(s: Scheduler, e: Event)
    requires s.Valid() && WellFormed(e)
    modifies s`states, s`peers, s`missPrevTx, s`recvTx, s.orphanBlock, s.orphanTx
    ensures s.Valid()
    ensures e.Leave? ==> forall inv :: inv in s.states ==>
      e.peer !in s.states[inv].known && s.states[inv].assignee != e.peer
  {
    match e
    case Orphaned(h, prev) => s.AddOrphanBlockPrev(h, prev);
    case OrphanedTx(h, prev) => s.AddOrphanTxPrev(h, prev);
    case MissingTx(h) => var _ := s.CheckPrevTxInv(h);
    case Attach(first, stored, judge, pool, now) =>
      var _, _, _, _, _, _ := AddNewBlock(s, first, stored, judge, pool, now);
    case AttachTx(h, pool, now) => var _, _ := AddNewTx(s, h, pool, now);
    case Delay(inv, until) => var _ := s.SetDelayedClear(inv, until);
    case Invalid(h) => var _ := s.InvalidateBlock(h);
    case InvalidTx(h) => var _ := s.InvalidateTx(h);
    case Forget(inv) => var _, _ := s.RemoveInv(inv);
    case _ => HandlePeer(s, e);
  }

  /** Whatever happens in whatever order: the two indexes mirror each other, every state has a peer,
      an object is asked of at most one peer, and the request limits hold. */
  method Run(events: seq<Event>) returns (s: Scheduler)
    requires forall i :: 0 <= i < |events| ==> WellFormed(events[i])
    ensures fresh(s) && s.Valid()
    ensures forall p, inv :: KnownBy(s.states, p, inv) <==> Knows(s.peers, p, inv)
    ensures forall p, inv :: p != 0 ==> (AwaitedFrom(s.states, p, inv) <==> Asked(s.peers, p, inv))
    ensures forall inv :: inv in s.states ==>
      s.states[inv].known != {} && s.states[inv].getDataCount <= MAX_REGETDATA_COUNT
    ensures |s.states| <= MAX_INV_COUNT && forall p :: p in s.peers ==> PeerOk(s.peers[p])
  {
    s := new Scheduler();
    for i := 0 to |events|
      invariant fresh(s) && fresh(s.orphanBlock) && fresh(s.orphanTx) && s.Valid()
    {
      Handle(s, events[i]);
    }
  }
}
