/** The records kept by the inventory scheduler (src/blockchain/schedule.h), the invariant that
    ties its two indexes together, and the effect of each bookkeeping step on that invariant. */
module Inventory {
  import opened Common
  import opened Orphan

  const MAX_INV_COUNT: nat := 1024 * 256
  const MAX_PEER_BLOCK_INV_COUNT: nat := 1024
  const MAX_PEER_TX_INV_COUNT: nat := 1024 * 256
  const MAX_REGETDATA_COUNT: nat := 10
  const MAX_INV_WAIT_TIME := 3600
  const MAX_OBJ_WAIT_TIME := 7200

  datatype Kind = TxKind | BlockKind

  datatype Inv = Inv(kind: Kind, hash: Hash)

  /** A transaction of a block, with the sender and nonce of the one it lets through: for a mint
      transaction the first of its recipient, otherwise the next of its sender. */
  datatype BlockTx = BlockTx(txid: Hash, dest: Dest, next: nat)

  /** A received object: a block with the parent it names and its transactions, or a transaction. */
  datatype Object = BlockObject(prev: Hash, txs: seq<BlockTx>) | TxObject(from: Dest, nonce: nat)

  /** CInvState. `assignee` is the nonce of the peer the object was requested from, 0 for nobody. */
  datatype InvState = InvState(
    assignee: nat,
    received: Option<Object>,
    known: set<nat>,
    recvInvTime: int,
    recvObjTime: int,
    clearObjTime: int,
    getDataCount: nat)

  const NewState := InvState(0, None, {}, 0, 0, 0, 0)

  datatype KindLists = KindLists(known: seq<Hash>, asked: set<Hash>)

  /** CInvPeer: for each kind the announced hashes in order and the hashes asked for. */
  datatype InvPeer = InvPeer(txs: KindLists, blocks: KindLists, nextGetBlocksTime: int) {
    function Lists(k: Kind): KindLists {
      if k.TxKind? then txs else blocks
    }

    function Known(k: Kind): seq<Hash> { Lists(k).known }

    function Assigned(k: Kind): set<Hash> { Lists(k).asked }

    predicate IsAssigned() { txs.asked != {} || blocks.asked != {} }

    function WithLists(k: Kind, l: KindLists): InvPeer {
      if k.TxKind? then this.(txs := l) else this.(blocks := l)
    }

    function AddNewInv(inv: Inv): InvPeer {
      WithLists(inv.kind, Lists(inv.kind).(known := Without(Known(inv.kind), inv.hash) + [inv.hash]))
    }

    function RemoveInv(inv: Inv): InvPeer {
      WithLists(inv.kind, KindLists(Without(Known(inv.kind), inv.hash), Assigned(inv.kind) - {inv.hash}))
    }

    function Assign(inv: Inv): InvPeer {
      WithLists(inv.kind, Lists(inv.kind).(asked := Assigned(inv.kind) + {inv.hash}))
    }

    function Completed(inv: Inv): InvPeer {
      WithLists(inv.kind, Lists(inv.kind).(asked := Assigned(inv.kind) - {inv.hash}))
    }
  }

  const NewPeer := InvPeer(KindLists([], {}), KindLists([], {}), 0)

  type States = map<Inv, InvState>
  type Peers = map<nat, InvPeer>

  function KnownLimit(k: Kind): nat {
    if k.TxKind? then MAX_PEER_TX_INV_COUNT else MAX_PEER_BLOCK_INV_COUNT
  }

  /** What SchedulePeerInv asks one peer for at a time: two blocks or MAX_PEER_SCHED_COUNT transactions. */
  function RequestLimit(k: Kind): nat {
    if k.TxKind? then 8 else 2
  }

  // ---------------------------------------------------------------- the invariant

  ghost predicate Knows(ps: Peers, p: nat, inv: Inv) {
    p in ps && inv.hash in ps[p].Known(inv.kind)
  }

  ghost predicate Asked(ps: Peers, p: nat, inv: Inv) {
    p in ps && inv.hash in ps[p].Assigned(inv.kind)
  }

  ghost predicate KnownBy(ss: States, p: nat, inv: Inv) {
    inv in ss && p in ss[inv].known
  }

  ghost predicate AwaitedFrom(ss: States, p: nat, inv: Inv) {
    inv in ss && ss[inv].assignee == p && ss[inv].received.None?
  }

  /** The two indexes say the same about who announced what. */
  ghost predicate Mirror(ss: States, ps: Peers) {
    forall p, inv :: KnownBy(ss, p, inv) <==> Knows(ps, p, inv)
  }

  /** Outstanding requests are exactly the assignments whose object has not come, so an object is
      asked of one peer at a time. */
  ghost predicate Exclusive(ss: States, ps: Peers) {
    forall p, inv :: p != 0 ==> (AwaitedFrom(ss, p, inv) <==> Asked(ps, p, inv))
  }

  ghost predicate StateOk(inv: Inv, st: InvState) {
    && st.known != {} && 0 !in st.known
    && (st.assignee != 0 ==> st.assignee in st.known)
    && (st.received.Some? ==> st.assignee != 0 && (st.received.value.BlockObject? <==> inv.kind.BlockKind?))
    && st.getDataCount <= MAX_REGETDATA_COUNT
  }

  ghost predicate StatesOk(ss: States) {
    |ss| <= MAX_INV_COUNT && forall inv :: inv in ss ==> StateOk(inv, ss[inv])
  }

  ghost predicate PeerOk(peer: InvPeer) {
    && (forall k: Kind ::
      NoDup(peer.Known(k)) && |peer.Known(k)| <= KnownLimit(k) && |peer.Assigned(k)| <= RequestLimit(k))
    && (peer.txs.asked == {} || peer.blocks.asked == {})
  }

  ghost predicate PeersOk(ps: Peers) {
    0 !in ps && forall p :: p in ps ==> PeerOk(ps[p])
  }

  ghost predicate Good(ss: States, ps: Peers) {
    Mirror(ss, ps) && Exclusive(ss, ps) && StatesOk(ss) && PeersOk(ps)
  }

  /** At most one peer is asked for an object at a time. */
  lemma AskedOfOnePeer(ss: States, ps: Peers, p: nat, q: nat, inv: Inv)
    requires Good(ss, ps) && Asked(ps, p, inv) && Asked(ps, q, inv)
    ensures p == q
  {
    assert AwaitedFrom(ss, p, inv) && AwaitedFrom(ss, q, inv);
  }

  // ---------------------------------------------------------------- list lemmas

  lemma {:induction false} WithoutKeepsNoDup(s: seq<Hash>, h: Hash)
    requires NoDup(s)
    ensures NoDup(Without(s, h)) && |Without(s, h)| <= |s|
  {
    if s != [] {
      assert NoDup(s[1..]);
      WithoutKeepsNoDup(s[1..], h);
      assert s[0] !in s[1..];
    }
  }

  function Elems(s: seq<Hash>): set<Hash> {
    set h | h in s
  }

  lemma ElemsAppend(s: seq<Hash>, h: Hash)
    ensures Elems(s + [h]) == Elems(s) + {h}
  {
  }

  lemma {:induction false} ElemsSize(s: seq<Hash>)
    ensures |Elems(s)| <= |s|
    ensures NoDup(s) ==> |Elems(s)| == |s|
  {
    if s == [] {
      assert Elems(s) == {};
    } else {
      var n := |s| - 1;
      ElemsSize(s[..n]);
      assert s == s[..n] + [s[n]];
      ElemsAppend(s[..n], s[n]);
      if NoDup(s) {
        assert s[n] !in s[..n];
      }
    }
  }

  lemma SubsetSize<T>(a: set<T>, b: set<T>)
    requires a <= b
    ensures |a| <= |b|
    ensures |a| == |b| ==> a == b
  {
    assert b == a + (b - a);
  }

  // ---------------------------------------------------------------- steps

  /** A peer object is created on first mention. */
  function Touch(ps: Peers, p: nat): Peers {
    if p in ps then ps else ps[p := NewPeer]
  }

  /** CheckAddInvIdleLocation mentions the peer only when the state table has room. */
  function Met(ps: Peers, p: nat, ss: States): Peers {
    if |ss| < MAX_INV_COUNT then Touch(ps, p) else ps
  }

  lemma TouchKeeps(ss: States, ps: Peers, p: nat)
    requires Good(ss, ps) && p != 0
    ensures Good(ss, Touch(ps, p))
  {
    var t := Touch(ps, p);
    forall q, inv ensures Knows(t, q, inv) <==> Knows(ps, q, inv) {}
    forall q, inv ensures Asked(t, q, inv) <==> Asked(ps, q, inv) {}
    assert PeersOk(t);
  }

  function Announced(ss: States, inv: Inv, p: nat, now: int): States {
    var st := if inv in ss then ss[inv] else NewState;
    ss[inv := st.(known := st.known + {p}, recvInvTime := if st.recvInvTime == 0 then now else st.recvInvTime)]
  }

  lemma AddNewInvKeepsPeerOk(peer: InvPeer, inv: Inv)
    requires PeerOk(peer) && |peer.Known(inv.kind)| < KnownLimit(inv.kind)
    ensures PeerOk(peer.AddNewInv(inv))
  {
    var rest := Without(peer.Known(inv.kind), inv.hash);
    WithoutKeepsNoDup(peer.Known(inv.kind), inv.hash);
    assert inv.hash !in rest;
    assert NoDup(rest + [inv.hash]);
  }

  lemma AnnounceKeepsStates(ss: States, inv: Inv, p: nat, now: int)
    requires StatesOk(ss) && p != 0 && |ss| < MAX_INV_COUNT
    ensures StatesOk(Announced(ss, inv, p, now))
  {
    var ss' := Announced(ss, inv, p, now);
    assert |ss'| <= MAX_INV_COUNT by {
      assert ss'.Keys == ss.Keys + {inv};
    }
    forall i | i in ss' ensures StateOk(i, ss'[i]) {
      if i == inv {
        assert p in ss'[i].known;
      }
    }
  }

  lemma AnnounceMirror(ss: States, ps: Peers, inv: Inv, p: nat, now: int)
    requires Mirror(ss, ps) && p in ps
    ensures Mirror(Announced(ss, inv, p, now), ps[p := ps[p].AddNewInv(inv)])
  {
    var ss' := Announced(ss, inv, p, now);
    var ps' := ps[p := ps[p].AddNewInv(inv)];
    forall q, i ensures KnownBy(ss', q, i) <==> Knows(ps', q, i) {
      assert KnownBy(ss, q, i) <==> Knows(ps, q, i);
    }
  }

  lemma AnnounceExclusive(ss: States, ps: Peers, inv: Inv, p: nat, now: int)
    requires Exclusive(ss, ps) && p in ps
    ensures Exclusive(Announced(ss, inv, p, now), ps[p := ps[p].AddNewInv(inv)])
  {
    var ss' := Announced(ss, inv, p, now);
    var ps' := ps[p := ps[p].AddNewInv(inv)];
    forall q, i | q != 0 ensures AwaitedFrom(ss', q, i) <==> Asked(ps', q, i) {
      assert AwaitedFrom(ss, q, i) <==> Asked(ps, q, i);
    }
  }

  /** Announcing an inventory within the limits keeps the invariant. */
  lemma AnnounceKeeps(ss: States, ps: Peers, inv: Inv, p: nat, now: int)
    requires Good(ss, ps) && p != 0 && p in ps
    requires |ss| < MAX_INV_COUNT && |ps[p].Known(inv.kind)| < KnownLimit(inv.kind)
    ensures Good(Announced(ss, inv, p, now), ps[p := ps[p].AddNewInv(inv)])
  {
    AnnounceMirror(ss, ps, inv, p, now);
    AnnounceExclusive(ss, ps, inv, p, now);
    AnnounceKeepsStates(ss, inv, p, now);
    AddNewInvKeepsPeerOk(ps[p], inv);
  }

  /** Every peer in `who` strikes inv from its lists. */
  function Struck(ps: Peers, inv: Inv, who: set<nat>): Peers {
    map q | q in ps :: if q in who then ps[q].RemoveInv(inv) else ps[q]
  }

  lemma StruckStep(ps: Peers, inv: Inv, who: set<nat>, todo: set<nat>, q: nat)
    requires q in ps && q in todo && q in who
    ensures q in Struck(ps, inv, who - todo)
    ensures Struck(ps, inv, who - todo)[q := Struck(ps, inv, who - todo)[q].RemoveInv(inv)] ==
            Struck(ps, inv, who - (todo - {q}))
  {
    assert who - todo + {q} == who - (todo - {q});
  }

  lemma StruckEnds(ps: Peers, inv: Inv, who: set<nat>)
    ensures Struck(ps, inv, who - who) == ps
    ensures Struck(ps, inv, who - {}) == Struck(ps, inv, who)
  {
    assert who - {} == who;
  }

  /** The loop of CSchedule::RemoveInv over the peers that know an inventory. */
  method StrikeFromPeers(ps: Peers, inv: Inv, who: set<nat>) returns (r: Peers)
    requires who <= ps.Keys
    ensures r == Struck(ps, inv, who)
  {
    r := ps;
    var todo := who;
    StruckEnds(ps, inv, who);
    while todo != {}
      invariant todo <= who
      invariant r == Struck(ps, inv, who - todo)
      decreases |todo|
    {
      var q := Least(todo);
      StruckStep(ps, inv, who, todo, q);
      r := r[q := r[q].RemoveInv(inv)];
      todo := todo - {q};
    }
  }

  lemma RemoveInvKeepsPeerOk(peer: InvPeer, inv: Inv)
    requires PeerOk(peer)
    ensures PeerOk(peer.RemoveInv(inv))
  {
    WithoutKeepsNoDup(peer.Known(inv.kind), inv.hash);
    SubsetSize(peer.Assigned(inv.kind) - {inv.hash}, peer.Assigned(inv.kind));
  }

  lemma StrikeKeepsPeers(ps: Peers, inv: Inv, who: set<nat>)
    requires PeersOk(ps)
    ensures PeersOk(Struck(ps, inv, who))
  {
    forall q | q in ps ensures PeerOk(Struck(ps, inv, who)[q]) {
      RemoveInvKeepsPeerOk(ps[q], inv);
    }
  }

  lemma RemoveMirror(ss: States, ps: Peers, inv: Inv)
    requires Mirror(ss, ps) && inv in ss
    ensures Mirror(ss - {inv}, Struck(ps, inv, ss[inv].known))
  {
    var ps' := Struck(ps, inv, ss[inv].known);
    forall q, i ensures KnownBy(ss - {inv}, q, i) <==> Knows(ps', q, i) {
      assert KnownBy(ss, q, i) <==> Knows(ps, q, i);
    }
  }

  lemma RemoveExclusive(ss: States, ps: Peers, inv: Inv)
    requires Exclusive(ss, ps) && inv in ss && StateOk(inv, ss[inv])
    ensures Exclusive(ss - {inv}, Struck(ps, inv, ss[inv].known))
  {
    var ps' := Struck(ps, inv, ss[inv].known);
    forall q, i | q != 0 ensures AwaitedFrom(ss - {inv}, q, i) <==> Asked(ps', q, i) {
      assert AwaitedFrom(ss, q, i) <==> Asked(ps, q, i);
    }
  }

  /** Deleting a state together with the entries of all peers that know it keeps the invariant. */
  lemma RemoveKeeps(ss: States, ps: Peers, inv: Inv)
    requires Good(ss, ps) && inv in ss
    ensures Good(ss - {inv}, Struck(ps, inv, ss[inv].known))
  {
    RemoveMirror(ss, ps, inv);
    RemoveExclusive(ss, ps, inv);
    StrikeKeepsPeers(ps, inv, ss[inv].known);
    SubsetSize((ss - {inv}).Keys, ss.Keys);
  }

  /** The object arrives from the peer it was asked of. */
  function Arrived(st: InvState, obj: Object, now: int): InvState {
    st.(received := Some(obj), recvObjTime := now, clearObjTime := now + MAX_OBJ_WAIT_TIME)
  }

  lemma ArriveMirror(ss: States, ps: Peers, inv: Inv, p: nat, obj: Object, now: int)
    requires Mirror(ss, ps) && p in ps && inv in ss
    ensures Mirror(ss[inv := Arrived(ss[inv], obj, now)], ps[p := ps[p].Completed(inv)])
  {
    var ss' := ss[inv := Arrived(ss[inv], obj, now)];
    var ps' := ps[p := ps[p].Completed(inv)];
    forall q, i ensures KnownBy(ss', q, i) <==> Knows(ps', q, i) {
      assert KnownBy(ss, q, i) <==> Knows(ps, q, i);
    }
  }

  lemma ArriveExclusive(ss: States, ps: Peers, inv: Inv, p: nat, obj: Object, now: int)
    requires Exclusive(ss, ps) && p in ps && AwaitedFrom(ss, p, inv)
    ensures Exclusive(ss[inv := Arrived(ss[inv], obj, now)], ps[p := ps[p].Completed(inv)])
  {
    var ss' := ss[inv := Arrived(ss[inv], obj, now)];
    var ps' := ps[p := ps[p].Completed(inv)];
    forall q, i | q != 0 ensures AwaitedFrom(ss', q, i) <==> Asked(ps', q, i) {
      assert AwaitedFrom(ss, q, i) <==> Asked(ps, q, i);
    }
  }

  /** Taking delivery from the assigned peer keeps the invariant. */
  lemma ArriveKeeps(ss: States, ps: Peers, inv: Inv, p: nat, obj: Object, now: int)
    requires Good(ss, ps) && p != 0 && AwaitedFrom(ss, p, inv)
    requires obj.BlockObject? <==> inv.kind.BlockKind?
    ensures p in ps
    ensures Good(ss[inv := Arrived(ss[inv], obj, now)], ps[p := ps[p].Completed(inv)])
  {
    assert Asked(ps, p, inv);
    ArriveMirror(ss, ps, inv, p, obj, now);
    ArriveExclusive(ss, ps, inv, p, obj, now);
    SubsetSize(ps[p].Assigned(inv.kind) - {inv.hash}, ps[p].Assigned(inv.kind));
    assert PeerOk(ps[p].Completed(inv));
  }

  lemma DelayKeeps(ss: States, ps: Peers, inv: Inv, until: int)
    requires Good(ss, ps) && inv in ss
    ensures Good(ss[inv := ss[inv].(clearObjTime := until)], ps)
  {
    var ss' := ss[inv := ss[inv].(clearObjTime := until)];
    assert |ss'| == |ss| by {
      assert ss'.Keys == ss.Keys;
    }
    forall q, i ensures KnownBy(ss', q, i) <==> KnownBy(ss, q, i) {}
    forall q, i ensures AwaitedFrom(ss', q, i) <==> AwaitedFrom(ss, q, i) {}
  }

  /** The states after p gave up inv: unassigned, and gone when p was the last to know it. */
  function GivenUp(ss: States, inv: Inv, p: nat): States
    requires inv in ss
  {
    var st := ss[inv].(assignee := 0, known := ss[inv].known - {p});
    if st.known == {} then ss - {inv} else ss[inv := st]
  }

  lemma CancelMirror(ss: States, ps: Peers, inv: Inv, p: nat)
    requires Mirror(ss, ps) && p in ps && inv in ss
    ensures Mirror(GivenUp(ss, inv, p), ps[p := ps[p].RemoveInv(inv)])
  {
    var ps' := ps[p := ps[p].RemoveInv(inv)];
    forall q, i ensures KnownBy(GivenUp(ss, inv, p), q, i) <==> Knows(ps', q, i) {
      assert KnownBy(ss, q, i) <==> Knows(ps, q, i);
      if i == inv && q != p && q in ss[inv].known {
        assert q in ss[inv].known - {p};
      }
    }
  }

  lemma CancelExclusive(ss: States, ps: Peers, inv: Inv, p: nat)
    requires Exclusive(ss, ps) && p != 0 && p in ps && AwaitedFrom(ss, p, inv)
    ensures Exclusive(GivenUp(ss, inv, p), ps[p := ps[p].RemoveInv(inv)])
  {
    var ps' := ps[p := ps[p].RemoveInv(inv)];
    forall q, i | q != 0 ensures AwaitedFrom(GivenUp(ss, inv, p), q, i) <==> Asked(ps', q, i) {
      assert AwaitedFrom(ss, q, i) <==> Asked(ps, q, i);
    }
  }

  lemma CancelKeepsStates(ss: States, inv: Inv, p: nat)
    requires StatesOk(ss) && p != 0 && AwaitedFrom(ss, p, inv)
    ensures StatesOk(GivenUp(ss, inv, p))
  {
    var ss' := GivenUp(ss, inv, p);
    assert |ss'| <= |ss| by {
      SubsetSize(ss'.Keys, ss.Keys);
    }
    forall i | i in ss' ensures StateOk(i, ss'[i]) {
    }
  }

  /** Giving up an outstanding request keeps the invariant. */
  lemma CancelKeeps(ss: States, ps: Peers, inv: Inv, p: nat)
    requires Good(ss, ps) && p != 0 && AwaitedFrom(ss, p, inv)
    ensures p in ps
    ensures Good(GivenUp(ss, inv, p), ps[p := ps[p].RemoveInv(inv)])
  {
    assert Asked(ps, p, inv);
    CancelMirror(ss, ps, inv, p);
    CancelExclusive(ss, ps, inv, p);
    CancelKeepsStates(ss, inv, p);
    RemoveInvKeepsPeerOk(ps[p], inv);
  }

  /** One inventory after the peer p has gone: p's assignment and object go with it. */
  function Orphaned(st: InvState, p: nat): InvState {
    var st' := st.(known := st.known - {p});
    if st.assignee == p then st'.(assignee := 0, received := None) else st'
  }

  /** The states once p has been taken out of those listed in `done`. */
  function Departed(ss: States, p: nat, done: seq<Inv>): States {
    map inv | inv in ss && !(inv in done && ss[inv].known - {p} == {}) ::
      if inv in done then Orphaned(ss[inv], p) else ss[inv]
  }

  lemma DepartStep(ss: States, p: nat, done: seq<Inv>, inv: Inv)
    requires inv !in done
    ensures inv in Departed(ss, p, done) <==> inv in ss
    ensures inv in ss ==> Departed(ss, p, done)[inv] == ss[inv]
    ensures Departed(ss, p, done + [inv]) ==
            if inv !in ss then Departed(ss, p, done)
            else if ss[inv].known - {p} == {} then Departed(ss, p, done) - {inv}
            else Departed(ss, p, done)[inv := Orphaned(ss[inv], p)]
  {
  }

  lemma DepartNone(ss: States, p: nat)
    ensures Departed(ss, p, []) == ss
  {
  }

  /** Everything p announced, blocks first (CInvPeer::GetKnownInv). */
  function KnownInvs(peer: InvPeer): (r: seq<Inv>)
    ensures forall inv :: inv in r <==> inv.hash in peer.Known(inv.kind)
  {
    var bs := seq(|peer.blocks.known|, i requires 0 <= i < |peer.blocks.known| => Inv(BlockKind, peer.blocks.known[i]));
    var ts := seq(|peer.txs.known|, i requires 0 <= i < |peer.txs.known| => Inv(TxKind, peer.txs.known[i]));
    assert forall h :: h in peer.blocks.known ==> Inv(BlockKind, h) in bs by {
      forall h | h in peer.blocks.known ensures Inv(BlockKind, h) in bs {
        var i :| 0 <= i < |peer.blocks.known| && peer.blocks.known[i] == h;
        assert bs[i] == Inv(BlockKind, h);
      }
    }
    assert forall h :: h in peer.txs.known ==> Inv(TxKind, h) in ts by {
      forall h | h in peer.txs.known ensures Inv(TxKind, h) in ts {
        var i :| 0 <= i < |peer.txs.known| && peer.txs.known[i] == h;
        assert ts[i] == Inv(TxKind, h);
      }
    }
    bs + ts
  }

  lemma KnownInvsNoDup(peer: InvPeer)
    requires PeerOk(peer)
    ensures forall i, j :: 0 <= i < j < |KnownInvs(peer)| ==> KnownInvs(peer)[i] != KnownInvs(peer)[j]
  {
    assert NoDup(peer.Known(BlockKind)) && NoDup(peer.Known(TxKind));
  }

  /** The peers told to look for another source: all others that know an inventory that was asked of p. */
  ghost function Rescheduled(ss: States, p: nat, done: seq<Inv>): set<nat> {
    set inv, q | inv in done && inv in ss && ss[inv].assignee == p && q in ss[inv].known - {p} :: q
  }

  lemma RescheduledStep(ss: States, p: nat, done: seq<Inv>, inv: Inv)
    ensures Rescheduled(ss, p, done + [inv]) ==
            Rescheduled(ss, p, done) + (if inv in ss && ss[inv].assignee == p then ss[inv].known - {p} else {})
  {
    forall q ensures q in Rescheduled(ss, p, done + [inv]) <==>
                     q in Rescheduled(ss, p, done) + (if inv in ss &&
                         ss[inv].assignee == p then ss[inv].known - {p} else {})
    {
      if q in Rescheduled(ss, p, done) {
        var i :| i in done && i in ss && ss[i].assignee == p && q in ss[i].known - {p};
        assert i in done + [inv];
      }
      if inv in ss && ss[inv].assignee == p && q in ss[inv].known - {p} {
        assert inv in done + [inv];
      }
    }
  }

  ghost predicate ListsKnown(ps: Peers, p: nat, done: seq<Inv>) {
    forall inv :: inv in done <==> Knows(ps, p, inv)
  }

  lemma DepartMirror(ss: States, ps: Peers, p: nat, done: seq<Inv>)
    requires Mirror(ss, ps) && ListsKnown(ps, p, done)
    ensures Mirror(Departed(ss, p, done), ps - {p})
  {
    forall q, i ensures KnownBy(Departed(ss, p, done), q, i) <==> Knows(ps - {p}, q, i) {
      assert KnownBy(ss, q, i) <==> Knows(ps, q, i);
      assert KnownBy(ss, p, i) <==> Knows(ps, p, i);
    }
  }

  lemma DepartStates(ss: States, ps: Peers, p: nat, done: seq<Inv>)
    requires Mirror(ss, ps) && StatesOk(ss) && p != 0 && ListsKnown(ps, p, done)
    ensures StatesOk(Departed(ss, p, done))
    ensures forall inv :: inv in Departed(ss, p, done) ==>
              p !in Departed(ss, p, done)[inv].known && Departed(ss, p, done)[inv].assignee != p
  {
    var ss' := Departed(ss, p, done);
    SubsetSize(ss'.Keys, ss.Keys);
    forall inv | inv in ss' ensures StateOk(inv, ss'[inv]) && p !in ss'[inv].known && ss'[inv].assignee != p {
      assert KnownBy(ss, p, inv) <==> Knows(ps, p, inv);
    }
  }

  lemma DepartExclusive(ss: States, ps: Peers, p: nat, done: seq<Inv>)
    requires Mirror(ss, ps) && Exclusive(ss, ps) && StatesOk(ss) && ListsKnown(ps, p, done)
    ensures Exclusive(Departed(ss, p, done), ps - {p})
  {
    forall q, i | q != 0 ensures AwaitedFrom(Departed(ss, p, done), q, i) <==> Asked(ps - {p}, q, i) {
      assert AwaitedFrom(ss, q, i) <==> Asked(ps, q, i);
      assert KnownBy(ss, p, i) <==> Knows(ps, p, i);
    }
  }

  /** After a peer has gone the invariant holds and no state mentions the peer. */
  lemma DepartKeeps(ss: States, ps: Peers, p: nat, done: seq<Inv>)
    requires Good(ss, ps) && p != 0 && ListsKnown(ps, p, done)
    ensures Good(Departed(ss, p, done), ps - {p})
    ensures forall inv :: inv in Departed(ss, p, done) ==>
              p !in Departed(ss, p, done)[inv].known && Departed(ss, p, done)[inv].assignee != p
  {
    DepartMirror(ss, ps, p, done);
    DepartStates(ss, ps, p, done);
    DepartExclusive(ss, ps, p, done);
  }

  /** The inventories of kind k with hashes in `a` are requested from p. */
  function Requested(ss: States, p: nat, k: Kind, a: set<Hash>): States {
    map inv | inv in ss ::
      if inv.kind == k && inv.hash in a then ss[inv].(assignee := p, getDataCount := ss[inv].getDataCount + 1)
          else ss[inv]
  }

  function WithRequests(ps: Peers, p: nat, k: Kind, a: set<Hash>): Peers
    requires p in ps
  {
    ps[p := ps[p].WithLists(k, ps[p].Lists(k).(asked := ps[p].Assigned(k) + a))]
  }

  /** Known to p, asked of nobody, and not yet asked for too often. */
  ghost predicate Requestable(ss: States, ps: Peers, p: nat, k: Kind, a: set<Hash>) {
    forall h :: h in a ==>
      Knows(ps, p, Inv(k, h)) && Inv(k, h) in ss && ss[Inv(k, h)].assignee == 0 &&
      ss[Inv(k, h)].getDataCount < MAX_REGETDATA_COUNT
  }

  lemma RequestMirror(ss: States, ps: Peers, p: nat, k: Kind, a: set<Hash>)
    requires Mirror(ss, ps) && p in ps
    ensures Mirror(Requested(ss, p, k, a), WithRequests(ps, p, k, a))
  {
    forall q, i ensures KnownBy(Requested(ss, p, k, a), q, i) <==> Knows(WithRequests(ps, p, k, a), q, i) {
      assert KnownBy(ss, q, i) <==> Knows(ps, q, i);
    }
  }

  lemma RequestExclusive(ss: States, ps: Peers, p: nat, k: Kind, a: set<Hash>)
    requires Exclusive(ss, ps) && StatesOk(ss) && p != 0 && p in ps && Requestable(ss, ps, p, k, a)
    ensures Exclusive(Requested(ss, p, k, a), WithRequests(ps, p, k, a))
  {
    forall q, i | q != 0
      ensures AwaitedFrom(Requested(ss, p, k, a), q, i) <==> Asked(WithRequests(ps, p, k, a), q, i)
    {
      assert AwaitedFrom(ss, q, i) <==> Asked(ps, q, i);
      if i.kind == k && i.hash in a {
        assert Inv(k, i.hash) == i;
      }
    }
  }

  lemma RequestStates(ss: States, ps: Peers, p: nat, k: Kind, a: set<Hash>)
    requires Mirror(ss, ps) && StatesOk(ss) && p != 0 && Requestable(ss, ps, p, k, a)
    ensures StatesOk(Requested(ss, p, k, a))
  {
    var ss' := Requested(ss, p, k, a);
    assert |ss'| == |ss| by {
      assert ss'.Keys == ss.Keys;
    }
    forall inv | inv in ss' ensures StateOk(inv, ss'[inv]) {
      if inv.kind == k && inv.hash in a {
        assert Inv(k, inv.hash) == inv && Knows(ps, p, inv);
        assert KnownBy(ss, p, inv);
      }
    }
  }

  /** Requesting unassigned inventories from an idle peer that knows them keeps the invariant. */
  lemma RequestKeeps(ss: States, ps: Peers, p: nat, k: Kind, a: set<Hash>)
    requires Good(ss, ps) && p != 0 && p in ps && !ps[p].IsAssigned()
    requires Requestable(ss, ps, p, k, a) && |a| <= RequestLimit(k)
    ensures Good(Requested(ss, p, k, a), WithRequests(ps, p, k, a))
  {
    RequestMirror(ss, ps, p, k, a);
    RequestExclusive(ss, ps, p, k, a);
    RequestStates(ss, ps, p, k, a);
    assert ps[p].Assigned(k) + a == a;
    assert PeerOk(WithRequests(ps, p, k, a)[p]);
  }

  lemma RequestStep(ss: States, ps: Peers, p: nat, k: Kind, a: set<Hash>, h: Hash)
    requires p in ps && Inv(k, h) in ss && h !in a
    ensures Inv(k, h) in Requested(ss, p, k, a) && Requested(ss, p, k, a)[Inv(k, h)] == ss[Inv(k, h)]
    ensures Requested(ss, p, k, a)[Inv(k, h) := ss[Inv(k, h)].(assignee := p,
            getDataCount := ss[Inv(k, h)].getDataCount + 1)]
            == Requested(ss, p, k, a + {h})
    ensures WithRequests(ps, p, k, a)[p := WithRequests(ps, p, k, a)[p].Assign(Inv(k, h))] ==
            WithRequests(ps, p, k, a + {h})
  {
    assert ps[p].Assigned(k) + a + {h} == ps[p].Assigned(k) + (a + {h});
  }

  lemma RequestNone(ss: States, ps: Peers, p: nat, k: Kind)
    requires p in ps
    ensures Requested(ss, p, k, {}) == ss && WithRequests(ps, p, k, {}) == ps
  {
    assert ps[p].Assigned(k) + {} == ps[p].Assigned(k);
  }

  lemma TimerKeeps(ss: States, ps: Peers, p: nat, at: int)
    requires Good(ss, ps) && p in ps
    ensures Good(ss, ps[p := ps[p].(nextGetBlocksTime := at)])
  {
    var ps' := ps[p := ps[p].(nextGetBlocksTime := at)];
    forall q, i ensures Knows(ps', q, i) <==> Knows(ps, q, i) {}
    forall q, i ensures Asked(ps', q, i) <==> Asked(ps, q, i) {}
    assert PeerOk(ps'[p]) by {
      assert PeerOk(ps[p]);
      assert forall k: Kind :: ps'[p].Known(k) == ps[p].Known(k) && ps'[p].Assigned(k) == ps[p].Assigned(k);
    }
  }
}
