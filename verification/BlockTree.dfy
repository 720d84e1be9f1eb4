/** CBlockIndex (src/common/block.h): the tree of block headers, each node reaching the root over
    its parents. Pointer equality of nodes is equality of values here. */
module BlockTree {
  import opened Common

  datatype BlockType = Genesis | Primary | Origin | Subsidiary | Extended | Vacant

  /** `origin` is the hash of the fork's first block, `ref` the primary block a sub-fork block names,
      `work` tells a proof-of-work mint from a stake mint. */
  datatype Index = Index(
    hash: Hash,
    origin: Hash,
    kind: BlockType,
    work: bool,
    mint: Dest,
    time: nat,
    height: nat,
    slot: nat,
    number: nat,
    reward: nat,
    ref: Hash,
    prev: Link) {

    predicate IsPrimary() { kind.Genesis? || kind.Primary? }

    predicate IsOrigin() { kind.Genesis? || kind.Origin? }
  }

  /** A possibly null pointer to a node. */
  datatype Link = Null | To(node: Index)

  /** The nodes from a tip down to the root. */
  ghost function Branch(l: Link): seq<Index> {
    match l
    case Null => []
    case To(n) => [n] + Branch(n.prev)
  }

  ghost function Depth(l: Link): nat {
    |Branch(l)|
  }

  /** a is b or an ancestor of b. */
  ghost predicate IsAncestor(a: Index, b: Index) {
    a in Branch(To(b))
  }
}
