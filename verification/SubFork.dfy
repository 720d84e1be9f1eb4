/** The sub-fork rules: the subsidiary, extended and vacant branches of CBlockChain::VerifyBlock
    (src/blockchain/blockchain.cpp), CCoreProtocol::VerifySubsidiary (src/blockchain/core.cpp) and the
    primary-chain queries of src/storage/blockbase.cpp they rely on. */
module SubFork {
  import opened Common
  import opened BlockTree

  datatype Errno = OK | InvalidFork | ProofOfStakeInvalid | MissingPrev | TimestampOutOfRange

  /** BLOCK_TARGET_SPACING and EXTENDED_BLOCK_SPACING, in seconds. */
  type Seconds = n: nat | n > 0 witness 1
  datatype Spacing = Spacing(target: Seconds, extended: Seconds)

  /** CProofOfPiggyback: the primary block a sub-fork block refers to, with its agreement. */
  datatype Proof = Proof(ref: Hash, agreement: nat, weight: nat)

  /** A primary block's agreement; `work` when it is mined rather than drawn by ballot. */
  datatype Agreement = Agreement(agreement: nat, weight: nat, work: bool, ballot: Dest)

  datatype Header = Header(kind: BlockType, time: nat, height: nat, slot: nat, mint: Dest, proof: Option<Proof>)

  /** What a node can look up: headers, agreements of primary blocks, the proofs in the bodies it can
      read, the times of all primary blocks at a height, and whether the mint reward is known. */
  datatype View = View(
    blocks: map<Hash, Index>,
    agreements: map<Hash, Agreement>,
    proofs: map<Hash, Option<Proof>>,
    times: map<nat, set<nat>>,
    rewardKnown: bool,
    spacing: Spacing)

  // ---------------------------------------------------------------- primary-chain queries

  function SameChain(p: Index, l: Link): bool {
    if l.Null? || l.node.height < p.height then false
    else l.node == p || SameChain(p, l.node.prev)
  }

  /** Primary heights count from 0 at the root. */
  ghost predicate Counted(l: Link) {
    l.To? ==>
      if l.node.prev.Null? then l.node.height == 0
      else l.node.height == l.node.prev.node.height + 1 && Counted(l.node.prev)
  }

  ghost function Root(n: Index): Index {
    if n.prev.Null? then n else Root(n.prev.node)
  }

  lemma {:induction false} AncestorIsLower(p: Index, l: Link)
    requires Counted(l) && p in Branch(l)
    ensures p.height <= l.node.height
  {
    if p != l.node {
      AncestorIsLower(p, l.node.prev);
    }
  }

  /** The height test never cuts the search short. */
  lemma {:induction false} SameChainIff(p: Index, l: Link)
    requires Counted(l)
    ensures SameChain(p, l) <==> p in Branch(l)
  {
    if l.To? {
      SameChainIff(p, l.node.prev);
      if p in Branch(l) {
        AncestorIsLower(p, l);
      }
    }
  }

  /** CBlockBase::VerifySameChain. In a tree with one root the walk ends before a null pointer. */
  method VerifySameChain(p: Index, after: Index) returns (same: bool)
    requires Counted(To(p)) && Counted(To(after)) && Root(p) == Root(after)
    ensures same <==> IsAncestor(p, after)
  {
    SameChainIff(p, To(after));
    var a := after;
    while a.height >= p.height
      invariant SameChain(p, To(after)) == SameChain(p, To(a))
      invariant Counted(To(a)) && Root(a) == Root(after)
      decreases a
    {
      if a == p {
        return true;
      }
      a := a.prev.node;
    }
    return false;
  }

  lemma {:induction false} AncestorTransitive(a: Index, b: Index, l: Link)
    requires a in Branch(To(b)) && b in Branch(l)
    ensures a in Branch(l)
  {
    if b != l.node {
      AncestorTransitive(a, b, l.node.prev);
    }
  }

  /** The time of the block at a height on the way down from l. */
  function TimeAt(l: Link, height: nat): Option<nat> {
    if l.Null? || l.node.height < height then None
    else if l.node.height == height then Some(l.node.time)
    else TimeAt(l.node.prev, height)
  }

  /** CBlockBase::GetPrimaryHeightBlockTime. */
  method GetPrimaryHeightBlockTime(last: Index, height: nat) returns (time: Option<nat>)
    ensures time == if last.IsPrimary() then TimeAt(To(last), height) else None
  {
    if !last.IsPrimary() {
      return None;
    }
    var l := To(last);
    while l.To? && l.node.height >= height
      invariant TimeAt(To(last), height) == TimeAt(l, height)
      decreases l
    {
      if l.node.height == height {
        return Some(l.node.time);
      }
      l := l.node.prev;
    }
    return None;
  }

  lemma {:induction false} TimeAtAncestor(l: Link, a: Index)
    requires Counted(l) && a in Branch(l)
    ensures TimeAt(l, a.height) == Some(a.time)
  {
    AncestorIsLower(a, l);
    if a != l.node {
      AncestorIsLower(a, l.node.prev);
      TimeAtAncestor(l.node.prev, a);
    }
  }

  /** CBlockBase::VerifyPrimaryHeightRefBlockTime: all primary blocks of a height have this time. */
  predicate TimesAgree(v: View, height: nat, time: nat) {
    height in v.times && forall t :: t in v.times[height] ==> t == time
  }

  // ---------------------------------------------------------------- the rules

  /** CCoreProtocol::VerifySubsidiary. */
  function VerifySubsidiary(h: Header, prev: Index, ref: Index, ballot: Dest, s: Spacing): Errno {
    if h.time <= prev.time then TimestampOutOfRange
    else if h.kind.Subsidiary? && (h.slot != 0 || h.time != ref.time) then TimestampOutOfRange
    else if !h.kind.Subsidiary? && h.slot >= s.target / s.extended then TimestampOutOfRange
    else if !h.kind.Subsidiary? && (h.time <= ref.time || h.time >= ref.time + s.target) then TimestampOutOfRange
    else if !h.kind.Subsidiary? && (h.time - ref.time) % s.extended != 0 then TimestampOutOfRange
    else if !h.kind.Subsidiary? && (h.time - ref.time) / s.extended != h.slot then TimestampOutOfRange
    else if h.mint != ballot then ProofOfStakeInvalid
    else OK
  }

  /** The proof names a primary block drawn by ballot with the same agreement. */
  predicate ProofHolds(v: View, p: Proof) {
    && p.ref in v.agreements
    && v.agreements[p.ref].agreement == p.agreement && v.agreements[p.ref].weight == p.weight &&
        !v.agreements[p.ref].work
    && p.ref in v.blocks && v.blocks[p.ref].IsPrimary()
  }

  predicate RefFollows(v: View, p: Proof, q: Proof) {
    p.ref == q.ref || (p.ref in v.blocks && q.ref in v.blocks && SameChain(v.blocks[p.ref], To(v.blocks[q.ref])))
  }

  function ProofOf(v: View, h: Hash): Option<Proof> {
    if h in v.proofs && v.proofs[h].Some? && v.proofs[h].value.ref != 0 then v.proofs[h] else None
  }

  /** The reference must stay on the chain of the previous block's reference. */
  function CheckRef(v: View, prev: Index, p: Proof): Errno {
    if prev.IsOrigin() then OK
    else if prev.hash !in v.proofs then MissingPrev
    else if ProofOf(v, prev.hash).None? then ProofOfStakeInvalid
    else if !RefFollows(v, ProofOf(v, prev.hash).value, p) then ProofOfStakeInvalid
    else OK
  }

  function CheckPiggyback(v: View, h: Header, prev: Index, p: Proof): Errno
    requires ProofHolds(v, p) && CheckRef(v, prev, p) == OK
  {
    if h.kind.Extended? then
      if prev.IsOrigin() || prev.kind.Vacant? then MissingPrev
      else
        var q := ProofOf(v, prev.hash).value;
        if p.agreement != q.agreement || p.weight != q.weight then ProofOfStakeInvalid
        else VerifySubsidiary(h, prev, v.blocks[p.ref], v.agreements[p.ref].ballot, v.spacing)
    else if !v.rewardKnown then ProofOfStakeInvalid
    else VerifySubsidiary(h, prev, v.blocks[p.ref], v.agreements[p.ref].ballot, v.spacing)
  }

  function CheckVacant(v: View, h: Header, ref: Index): Errno {
    if TimesAgree(v, h.height, h.time) then OK
    else
      match TimeAt(To(ref), h.height)
      case None => ProofOfStakeInvalid
      case Some(t) => if t != h.time then TimestampOutOfRange else OK
  }

  /** The verdict on a subsidiary, extended or vacant block. */
  function VerifyBlock(v: View, h: Header, prev: Index): Errno
    requires h.kind.Subsidiary? || h.kind.Extended? || h.kind.Vacant?
  {
    if !h.kind.Vacant? && prev.IsPrimary() then InvalidFork
    else if h.proof.None? || h.proof.value.ref == 0 then if h.kind.Vacant? then ProofOfStakeInvalid else InvalidFork
    else
      var p := h.proof.value;
      if !ProofHolds(v, p) then ProofOfStakeInvalid
      else if h.kind.Vacant? && h.mint != v.agreements[p.ref].ballot then ProofOfStakeInvalid
      else if CheckRef(v, prev, p) != OK then CheckRef(v, prev, p)
      else if h.kind.Vacant? then CheckVacant(v, h, v.blocks[p.ref])
      else CheckPiggyback(v, h, prev, p)
  }

  /** A primary block's heights count from the root, and all times on its chain are recorded. */
  ghost predicate PrimaryOk(v: View, n: Index) {
    Counted(To(n)) && forall a :: a in Branch(To(n)) && a.height in v.times ==> a.time in v.times[a.height]
  }

  ghost predicate ViewOk(v: View) {
    forall h :: h in v.blocks && v.blocks[h].IsPrimary() ==> PrimaryOk(v, v.blocks[h])
  }

  // ---------------------------------------------------------------- exactly what the rules demand

  /** The block names a primary block drawn by ballot, repeats its agreement and is minted by the
      delegate drawn for it. */
  ghost predicate Drawn(v: View, h: Header) {
    && h.proof.Some? && h.proof.value.ref != 0 && h.proof.value.ref in v.blocks && h.proof.value.ref in v.agreements
    && v.blocks[h.proof.value.ref].IsPrimary()
    && v.agreements[h.proof.value.ref] == Agreement(h.proof.value.agreement, h.proof.value.weight, false, h.mint)
  }

  /** The parent starts the fork, or the block it refers to is an ancestor of the new reference. */
  ghost predicate Continues(v: View, h: Header, prev: Index)
    requires Drawn(v, h)
  {
    prev.IsOrigin() ||
    (&& prev.hash in v.proofs && v.proofs[prev.hash].Some? && v.proofs[prev.hash].value.ref != 0
     && v.proofs[prev.hash].value.ref in v.blocks
     && IsAncestor(v.blocks[v.proofs[prev.hash].value.ref], v.blocks[h.proof.value.ref]))
  }

  /** A subsidiary block opens the round of its reference, at the reference's own time. */
  ghost predicate OpensRound(v: View, h: Header, prev: Index, ref: Index) {
    !prev.IsPrimary() && v.rewardKnown && h.slot == 0 && prev.time < h.time == ref.time
  }

  /** An extended block carries on a round, under the parent's agreement and at the time of its slot. */
  ghost predicate CarriesOn(v: View, h: Header, prev: Index, ref: Index)
    requires Drawn(v, h) && Continues(v, h, prev)
  {
    && !prev.IsPrimary() && !prev.IsOrigin() && !prev.kind.Vacant?
    && h.proof.value.agreement == v.proofs[prev.hash].value.agreement
    && h.proof.value.weight == v.proofs[prev.hash].value.weight
    && prev.time < h.time == ref.time + v.spacing.extended * h.slot
    && 0 < h.slot < v.spacing.target / v.spacing.extended
  }

  /** A vacant block has the only time recorded for its height, or that of the block at its height
      below the reference. */
  ghost predicate FillsGap(v: View, h: Header, ref: Index) {
    || (h.height in v.times && forall t :: t in v.times[h.height] ==> t == h.time)
    || exists a :: IsAncestor(a, ref) && a.height == h.height && a.time == h.time
  }

  ghost predicate Lawful(v: View, h: Header, prev: Index) {
    && Drawn(v, h) && Continues(v, h, prev)
    && var ref := v.blocks[h.proof.value.ref];
    match h.kind
    case Subsidiary => OpensRound(v, h, prev, ref)
    case Extended => CarriesOn(v, h, prev, ref)
    case Vacant => FillsGap(v, h, ref)
    case _ => false
  }

  lemma {:induction false} TimeAtIff(l: Link, height: nat, time: nat)
    requires Counted(l)
    ensures TimeAt(l, height) == Some(time) <==> exists a :: a in Branch(l) && a.height == height && a.time == time
  {
    if l.To? {
      TimeAtIff(l.node.prev, height, time);
      if a :| a in Branch(l) && a.height == height && a.time == time {
        TimeAtAncestor(l, a);
      }
    }
  }

  lemma SlotTime(t: nat, r: nat, e: Seconds, slot: nat, target: nat)
    requires slot < target / e
    ensures (r < t < r + target && (t - r) % e == 0 && (t - r) / e == slot) <==> (slot > 0 && t == r + e * slot)
  {
    if slot > 0 && t == r + e * slot {
      SlotWithin(e, slot, target);
      assert (t - r) == e * slot + 0;
    }
  }

  lemma SlotWithin(e: Seconds, slot: nat, target: nat)
    requires 0 < slot < target / e
    ensures 0 < e * slot < target && (e * slot) % e == 0 && (e * slot) / e == slot
  {
    MulMonotone(slot + 1, target / e, e);
    assert e * (target / e) <= target;
    MulMonotone(1, slot, e);
    DivUnique(e * slot, slot, 0, e);
  }

  lemma CheckRefIff(v: View, h: Header, prev: Index)
    requires ViewOk(v) && Drawn(v, h)
    ensures CheckRef(v, prev, h.proof.value) == OK <==> Continues(v, h, prev)
  {
    var ref := v.blocks[h.proof.value.ref];
    assert PrimaryOk(v, ref);
    if ProofOf(v, prev.hash).Some? && ProofOf(v, prev.hash).value.ref in v.blocks {
      SameChainIff(v.blocks[ProofOf(v, prev.hash).value.ref], To(ref));
    }
  }

  lemma VerifySubsidiaryIff(h: Header, prev: Index, ref: Index, ballot: Dest, s: Spacing)
    ensures VerifySubsidiary(h, prev, ref, ballot, s) == OK <==>
              && h.mint == ballot && prev.time < h.time
              && if h.kind.Subsidiary? then h.slot == 0 && h.time == ref.time
                 else 0 < h.slot < s.target / s.extended && h.time == ref.time + s.extended * h.slot
  {
    if h.slot < s.target / s.extended {
      SlotTime(h.time, ref.time, s.extended, h.slot, s.target);
    }
  }

  lemma VacantIff(v: View, h: Header, prev: Index)
    requires ViewOk(v) && h.kind.Vacant? && Drawn(v, h)
    ensures VerifyBlock(v, h, prev) == OK <==>
              Continues(v, h, prev) && CheckVacant(v, h, v.blocks[h.proof.value.ref]) == OK
  {
    CheckRefIff(v, h, prev);
  }

  /** The verdict in full: a subsidiary, extended or vacant block passes exactly when it is lawful. */
  lemma VerifyBlockIff(v: View, h: Header, prev: Index)
    requires ViewOk(v) && (h.kind.Subsidiary? || h.kind.Extended? || h.kind.Vacant?)
    ensures VerifyBlock(v, h, prev) == OK <==> Lawful(v, h, prev)
  {
    if h.proof.Some? && h.proof.value.ref in v.blocks && h.proof.value.ref in v.agreements {
      var p := h.proof.value;
      VerifySubsidiaryIff(h, prev, v.blocks[p.ref], v.agreements[p.ref].ballot, v.spacing);
      if Drawn(v, h) {
        CheckRefIff(v, h, prev);
        assert PrimaryOk(v, v.blocks[p.ref]);
        TimeAtIff(To(v.blocks[p.ref]), h.height, h.time);
      }
    }
  }

  // ---------------------------------------------------------------- accepted branches

  predicate IsSub(n: Index) {
    n.kind.Subsidiary? || n.kind.Extended? || n.kind.Vacant?
  }

  function HeaderOf(v: View, n: Index): Header {
    Header(n.kind, n.time, n.height, n.slot, n.mint, ProofOf(v, n.hash))
  }

  ghost predicate AcceptedNode(v: View, n: Index) {
    IsSub(n) && n.prev.To? && VerifyBlock(v, HeaderOf(v, n), n.prev.node) == OK
  }

  /** A branch of a sub-fork down to its origin block. */
  ghost predicate AcceptedBranch(v: View, l: Link) {
    l.To? && (l.node.IsOrigin() || (AcceptedNode(v, l.node) && AcceptedBranch(v, l.node.prev)))
  }

  function RefOf(v: View, n: Index): Index
    requires ProofOf(v, n.hash).Some? && ProofHolds(v, ProofOf(v, n.hash).value)
  {
    v.blocks[ProofOf(v, n.hash).value.ref]
  }

  ghost predicate HasRef(v: View, n: Index) {
    ProofOf(v, n.hash).Some? && ProofHolds(v, ProofOf(v, n.hash).value)
  }

  lemma RefStep(v: View, n: Index)
    requires ViewOk(v) && AcceptedNode(v, n)
    ensures HasRef(v, n)
    ensures HasRef(v, n.prev.node) && !n.prev.node.IsOrigin() ==> IsAncestor(RefOf(v, n.prev.node), RefOf(v, n))
  {
    assert PrimaryOk(v, RefOf(v, n));
    if HasRef(v, n.prev.node) && !n.prev.node.IsOrigin() {
      SameChainIff(RefOf(v, n.prev.node), To(RefOf(v, n)));
    }
  }

  /** a lies on the branch of l above the origin block. */
  ghost predicate OnFork(l: Link, a: Index) {
    l.To? && !l.node.IsOrigin() && (l.node == a || OnFork(l.node.prev, a))
  }

  /** All references of an accepted branch lie on one primary branch, in non-decreasing order. */
  lemma {:induction false} RefsOrdered(v: View, l: Link, a: Index)
    requires ViewOk(v) && AcceptedBranch(v, l) && OnFork(l, a)
    ensures HasRef(v, l.node) && HasRef(v, a) && IsAncestor(RefOf(v, a), RefOf(v, l.node))
  {
    RefStep(v, l.node);
    if l.node != a {
      RefsOrdered(v, l.node.prev, a);
      AncestorTransitive(RefOf(v, a), RefOf(v, l.node.prev.node), To(RefOf(v, l.node)));
    }
  }

  lemma TimesRise(v: View, n: Index)
    requires AcceptedNode(v, n) && !n.kind.Vacant?
    ensures n.time > n.prev.node.time
  {
  }

  lemma {:induction false} OnForkAccepted(v: View, l: Link, a: Index)
    requires AcceptedBranch(v, l) && OnFork(l, a)
    ensures AcceptedBranch(v, To(a)) && AcceptedNode(v, a)
  {
    if l.node != a {
      OnForkAccepted(v, l.node.prev, a);
    }
  }

  /** The last block of a branch that is not extended. */
  ghost function Base(l: Link): Link {
    if l.To? && l.node.kind.Extended? then Base(l.node.prev) else l
  }

  /** Extended blocks only ever continue a subsidiary block, with its agreement. */
  lemma {:induction false} ExtendedOnSubsidiary(v: View, l: Link)
    requires AcceptedBranch(v, l) && l.node.kind.Extended?
    ensures Base(l).To? && Base(l).node.kind.Subsidiary?
    ensures ProofOf(v, l.node.hash).Some? && ProofOf(v, Base(l).node.hash).Some?
    ensures ProofOf(v, l.node.hash).value.agreement == ProofOf(v, Base(l).node.hash).value.agreement
  {
    if l.node.prev.node.kind.Extended? {
      ExtendedOnSubsidiary(v, l.node.prev);
    }
  }

  lemma Aligned(t: nat, r: nat, e: Seconds, slot: nat)
    requires t > r && (t - r) % e == 0 && (t - r) / e == slot
    ensures t == r + e * slot && slot > 0
  {
  }

  /** Where an extended block's time must be. */
  lemma ExtendedTime(v: View, n: Index)
    requires AcceptedNode(v, n) && n.kind.Extended?
    ensures HasRef(v, n)
    ensures n.time == RefOf(v, n).time + v.spacing.extended * n.slot &&
            0 < n.slot < v.spacing.target / v.spacing.extended
  {
    Aligned(n.time, RefOf(v, n).time, v.spacing.extended, n.slot);
  }

  /** The rules along an accepted branch: every block is minted by the delegate drawn for its reference
      block; subsidiary blocks have the reference's time and slot zero, extended ones the time of their
      slot within the target spacing; and both are strictly later than their parents. */
  lemma BranchRules(v: View, l: Link, a: Index)
    requires AcceptedBranch(v, l) && OnFork(l, a)
    ensures HasRef(v, a) && a.prev.To? && a.mint == v.agreements[ProofOf(v, a.hash).value.ref].ballot
    ensures a.kind.Subsidiary? ==> a.time == RefOf(v, a).time && a.slot == 0
    ensures a.kind.Extended? ==> a.time == RefOf(v, a).time + v.spacing.extended * a.slot
    ensures a.kind.Extended? ==> 0 < a.slot < v.spacing.target / v.spacing.extended
    ensures !a.kind.Vacant? ==> a.time > a.prev.node.time
  {
    OnForkAccepted(v, l, a);
    if a.kind.Extended? {
      ExtendedTime(v, a);
    }
  }

  lemma MulOrder(e: Seconds, a: nat, b: nat)
    requires e * a < e * b
    ensures a < b
  {
    if a >= b {
      MulMonotone(b, a, e);
    }
  }

  /** Consecutive extended blocks with one reference have strictly increasing slots. */
  lemma SlotsRise(v: View, n: Index)
    requires AcceptedNode(v, n) && n.kind.Extended? && n.prev.To? && n.prev.node.kind.Extended? &&
             AcceptedNode(v, n.prev.node)
    requires ProofOf(v, n.hash).Some? && ProofOf(v, n.prev.node.hash).Some?
    requires ProofOf(v, n.hash).value.ref == ProofOf(v, n.prev.node.hash).value.ref
    ensures n.slot > n.prev.node.slot
  {
    ExtendedTime(v, n);
    ExtendedTime(v, n.prev.node);
    TimesRise(v, n);
    MulOrder(v.spacing.extended, n.prev.node.slot, n.slot);
  }

  /** The number of extended blocks with one reference at the end of a branch. */
  ghost function ExtendedRun(v: View, l: Link, ref: Hash): nat {
    if l.To? && l.node.kind.Extended? && ProofOf(v, l.node.hash).Some? && ProofOf(v, l.node.hash).value.ref == ref
    then ExtendedRun(v, l.node.prev, ref) + 1
    else 0
  }

  /** So there are fewer than target / extended of them. */
  lemma {:induction false} ExtendedRunBounded(v: View, l: Link, ref: Hash)
    requires AcceptedBranch(v, l)
    ensures ExtendedRun(v, l, ref) > 0 ==> ExtendedRun(v, l, ref) <= l.node.slot < v.spacing.target / v.spacing.extended
  {
    if ExtendedRun(v, l, ref) > 0 {
      ExtendedTime(v, l.node);
      ExtendedRunBounded(v, l.node.prev, ref);
      if ExtendedRun(v, l.node.prev, ref) > 0 {
        SlotsRise(v, l.node);
      }
    }
  }

  /** An accepted vacant block has the time of the primary block at its height below its reference. */
  lemma VacantTime(v: View, n: Index, a: Index)
    requires ViewOk(v) && AcceptedNode(v, n) && n.kind.Vacant? && HasRef(v, n) && IsAncestor(a, RefOf(v, n)) &&
             a.height == n.height
    ensures n.time == a.time
  {
    assert PrimaryOk(v, RefOf(v, n));
    TimeAtAncestor(To(RefOf(v, n)), a);
  }
}
