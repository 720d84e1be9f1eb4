/** The out-of-order block cache of CBlockChannel (src/blockchain/chnblock.cpp). */
module BlockCache {
  import opened Common

  const MAX_CACHE_CHN_BLOCK_COUNT: nat := 2000
  const MAX_CACHE_CHN_BLOCK_SIZE: nat := 1024 * 1024 * 1024
  const CHECK_INTERVAL: nat := 60
  const CACHE_SECONDS: nat := 3600 * 24
  const UINT64: nat := 0x1_0000_0000_0000_0000

  /** CChnCacheBlock: a block that arrived before its parent. */
  datatype CacheBlock = CacheBlock(prev: Hash, size: nat, time: nat, sender: nat)

  type Blocks = map<Hash, CacheBlock>

  ghost function Parents(blocks: Blocks): set<Hash> {
    set h | h in blocks :: blocks[h].prev
  }

  ghost function Children(blocks: Blocks, p: Hash): set<Hash> {
    set h | h in blocks && blocks[h].prev == p
  }

  /** For each parent the cached blocks that name it. */
  ghost function Index(blocks: Blocks): map<Hash, set<Hash>> {
    map p | p in Parents(blocks) :: Children(blocks, p)
  }

  ghost function Sizes(blocks: Blocks): map<Hash, nat> {
    map h | h in blocks :: blocks[h].size
  }

  ghost function Bytes(blocks: Blocks): nat {
    Total(Sizes(blocks))
  }

  lemma IndexIsInverse(blocks: Blocks, p: Hash, h: Hash)
    ensures p in Index(blocks) && h in Index(blocks)[p] <==> h in blocks && blocks[h].prev == p
    ensures p in Index(blocks) ==> Index(blocks)[p] != {}
  {
    if p in Index(blocks) {
      var c :| c in blocks && blocks[c].prev == p;
      assert c in Index(blocks)[p];
    }
  }

  lemma IndexAdd(blocks: Blocks, h: Hash, b: CacheBlock)
    requires h !in blocks
    ensures Index(blocks[h := b]) ==
            Index(blocks)[b.prev := (if b.prev in Index(blocks) then Index(blocks)[b.prev] else {}) + {h}]
  {
    var blocks' := blocks[h := b];
    var l := Index(blocks');
    var r := Index(blocks)[b.prev := (if b.prev in Index(blocks) then Index(blocks)[b.prev] else {}) + {h}];
    forall p ensures p in l <==> p in r {
      if p in l {
        var c :| c in blocks' && blocks'[c].prev == p;
        if c != h {
          assert c in blocks && blocks[c].prev == p;
        }
      }
      if p in r && p != b.prev {
        var c :| c in blocks && blocks[c].prev == p;
        assert c in blocks' && blocks'[c].prev == p;
      }
      assert blocks'[h].prev == b.prev;
    }
    forall p | p in l ensures l[p] == r[p] {
      if p == b.prev && p !in Index(blocks) {
        assert forall c :: c in blocks ==> blocks[c].prev != p;
      }
    }
  }

  lemma IndexRemove(blocks: Blocks, h: Hash)
    requires h in blocks
    ensures blocks[h].prev in Index(blocks)
    ensures var rest := Index(blocks)[blocks[h].prev] - {h};
            Index(blocks - {h}) == if rest == {} then Index(blocks) - {blocks[h].prev}
                else Index(blocks)[blocks[h].prev := rest]
  {
    var p0 := blocks[h].prev;
    var blocks' := blocks - {h};
    var rest := Index(blocks)[p0] - {h};
    var l := Index(blocks');
    var r := if rest == {} then Index(blocks) - {p0} else Index(blocks)[p0 := rest];
    forall p ensures p in l <==> p in r {
      if p in l {
        var c :| c in blocks' && blocks'[c].prev == p;
        assert c in blocks && blocks[c].prev == p;
        if p == p0 {
          assert c in rest;
        }
      }
      if p in r {
        if p == p0 {
          var c :| c in rest;
          assert c in blocks' && blocks'[c].prev == p;
        } else {
          var c :| c in blocks && blocks[c].prev == p;
          assert c in blocks' && blocks'[c].prev == p;
        }
      }
    }
    forall p | p in l ensures l[p] == r[p] {
    }
  }

  lemma BytesAdd(blocks: Blocks, h: Hash, b: CacheBlock)
    requires h !in blocks
    ensures Bytes(blocks[h := b]) == Bytes(blocks) + b.size
  {
    assert Sizes(blocks[h := b]) == Sizes(blocks)[h := b.size];
    TotalUpdate(Sizes(blocks), h, b.size);
  }

  lemma BytesRemove(blocks: Blocks, h: Hash)
    requires h in blocks
    ensures Bytes(blocks) == Bytes(blocks - {h}) + blocks[h].size
  {
    assert Sizes(blocks - {h}) == Sizes(blocks) - {h};
    TotalRemove(Sizes(blocks), h);
  }

  lemma EmptyHasNoBytes(blocks: Blocks)
    ensures |blocks| == 0 ==> Bytes(blocks) == 0
  {
    if |blocks| == 0 {
      assert Sizes(blocks) == map[];
    }
  }

  lemma NoIndexNoChildren(blocks: Blocks, p: Hash)
    ensures p in Index(blocks) <==> Children(blocks, p) != {}
    ensures p in Index(blocks) ==> Index(blocks)[p] == Children(blocks, p)
    ensures Ascending({}) == []
  {
    if p in Index(blocks) {
      var c :| c in blocks && blocks[c].prev == p;
      assert c in Children(blocks, p);
    }
    if Children(blocks, p) != {} {
      var c :| c in Children(blocks, p);
      assert blocks[c].prev in Parents(blocks);
    }
  }

  /** A block and its cached ancestors. */
  ghost function Lineage(blocks: Blocks, h: Hash): set<Hash>
    decreases |blocks|
  {
    if h in blocks then {h} + Lineage(blocks - {h}, blocks[h].prev) else {}
  }

  lemma LineageStep(blocks: Blocks, h: Hash)
    requires h in blocks
    ensures (blocks - {h}) - Lineage(blocks - {h}, blocks[h].prev) == blocks - Lineage(blocks, h)
  {
  }

  ghost function TimedOut(blocks: Blocks, cutoff: nat): set<Hash> {
    set h | h in blocks && blocks[h].time < cutoff
  }

  ghost function WithoutTimedOut(blocks: Blocks, last: nat, now: nat): Blocks {
    if last + CHECK_INTERVAL > now then blocks else blocks - TimedOut(blocks, (now - CACHE_SECONDS) % UINT64)
  }

  /** The cache after the chain has stored p. */
  ghost function AfterStored(blocks: Blocks, p: Hash, last: nat, now: nat): Blocks {
    var rest := blocks - Children(blocks, p);
    WithoutTimedOut(rest - Lineage(rest, p), last, now)
  }

  /** Neither a stored block nor a child of it stays cached, and nothing is added. */
  lemma NothingOfStoredLeft(blocks: Blocks, p: Hash, last: nat, now: nat)
    ensures p !in AfterStored(blocks, p, last, now)
    ensures forall h :: h in AfterStored(blocks, p, last, now) ==>
      h in blocks && AfterStored(blocks, p, last, now)[h] == blocks[h] && blocks[h].prev != p
  {
    var rest := blocks - Children(blocks, p);
    assert p in rest ==> p in Lineage(rest, p);
  }

  /** A set of keys below all the others. */
  ghost predicate Lowest(blocks: Blocks, low: set<Hash>) {
    low <= blocks.Keys && forall e, k :: e in low && k in blocks && k !in low ==> e < k
  }

  lemma LowestGrows(blocks: Blocks, low: set<Hash>, rest: Blocks)
    requires Lowest(blocks, low) && rest == blocks - low && |rest| > 0
    ensures rest.Keys != {} && Lowest(blocks, low + {Least(rest.Keys)})
    ensures rest - {Least(rest.Keys)} == blocks - (low + {Least(rest.Keys)})
  {
    assert |rest.Keys| > 0;
    assert forall k :: k in blocks && k !in low ==> k in rest.Keys;
  }

  ghost predicate OverLimit(blocks: Blocks) {
    |blocks| >= MAX_CACHE_CHN_BLOCK_COUNT || (Bytes(blocks) >= MAX_CACHE_CHN_BLOCK_SIZE && |blocks| > 0)
  }

  /** Without the last eviction the cache would still be over its limits. */
  ghost predicate AllNeeded(blocks: Blocks, evicted: set<Hash>) {
    forall h :: h in evicted && (forall x :: x in evicted ==> x <= h) ==> OverLimit(blocks - (evicted - {h}))
  }

  lemma NextIsNeeded(blocks: Blocks, evicted: set<Hash>, rest: Blocks, l: Hash)
    requires Lowest(blocks, evicted) && rest == blocks - evicted && l in rest && OverLimit(rest)
    ensures AllNeeded(blocks, evicted + {l})
  {
    var evicted' := evicted + {l};
    assert evicted' - {l} == evicted;
    forall h | h in evicted' && (forall x :: x in evicted' ==> x <= h) ensures OverLimit(blocks - (evicted' - {h})) {
      assert l in evicted';
    }
  }

  class Cache {
    var blocks: Blocks
    var byPrev: map<Hash, set<Hash>>
    var byteCount: nat
    var lastCheck: nat

    ghost predicate Valid()
      reads this
    {
      && byPrev == Index(blocks)
      && byteCount == Bytes(blocks)
      && |blocks| <= MAX_CACHE_CHN_BLOCK_COUNT
    }

    constructor ()
      ensures Valid() && blocks == map[] && lastCheck == 0
    {
      blocks, byPrev, byteCount, lastCheck := map[], map[], 0, 0;
    }

    /** Removes a block from both maps; the byte counter cannot underflow, and the reset on an empty
        cache changes nothing. */
    method RemoveCacheBlock(h: Hash)
      requires Valid()
      modifies this`blocks, this`byPrev, this`byteCount
      ensures Valid()
      ensures blocks == old(blocks) - {h}
    {
      if h in blocks {
        var p := blocks[h].prev;
        IndexRemove(blocks, h);
        BytesRemove(blocks, h);
        if p in byPrev {
          byPrev := byPrev[p := byPrev[p] - {h}];
          if byPrev[p] == {} {
            byPrev := byPrev - {p};
          }
        }
        byteCount := byteCount - blocks[h].size;
        blocks := blocks - {h};
        assert byPrev == Index(blocks);
        if blocks == map[] {
          byPrev := map[];
          byteCount := 0;
        }
      } else {
        assert blocks - {h} == blocks;
      }
    }

    method RemoveAll(gone: set<Hash>)
      requires Valid()
      modifies this`blocks, this`byPrev, this`byteCount
      ensures Valid()
      ensures blocks == old(blocks) - gone
    {
      ghost var before := blocks;
      var todo := gone;
      MinusEnds(before, gone);
      while todo != {}
        invariant Valid() && todo <= gone
        invariant blocks == before - (gone - todo)
        decreases |todo|
      {
        var h := Least(todo);
        MinusStep(before, gone, todo, h);
        RemoveCacheBlock(h);
        todo := todo - {h};
      }
    }

    /** Drops the cached blocks with the smallest hashes until the cache is within its limits. */
    method MakeRoom() returns (ghost evicted: set<Hash>)
      requires Valid()
      modifies this`blocks, this`byPrev, this`byteCount
      ensures Valid() && Lowest(old(blocks), evicted)
      ensures blocks == old(blocks) - evicted
      ensures |blocks| < MAX_CACHE_CHN_BLOCK_COUNT && (byteCount < MAX_CACHE_CHN_BLOCK_SIZE || |blocks| == 0)
      ensures |old(blocks)| < MAX_CACHE_CHN_BLOCK_COUNT && old(byteCount) < MAX_CACHE_CHN_BLOCK_SIZE ==> evicted == {}
      ensures AllNeeded(old(blocks), evicted)
    {
      evicted := {};
      ghost var before := blocks;
      assert before - evicted == before;
      while |blocks| >= MAX_CACHE_CHN_BLOCK_COUNT || (byteCount >= MAX_CACHE_CHN_BLOCK_SIZE && |blocks| > 0)
        invariant Valid() && Lowest(before, evicted)
        invariant blocks == before - evicted && AllNeeded(before, evicted)
        invariant |before| < MAX_CACHE_CHN_BLOCK_COUNT && old(byteCount) < MAX_CACHE_CHN_BLOCK_SIZE ==> evicted == {}
        decreases |blocks|
      {
        LowestGrows(before, evicted, blocks);
        var l := Least(blocks.Keys);
        NextIsNeeded(before, evicted, blocks, l);
        RemoveCacheBlock(l);
        evicted := evicted + {l};
      }
    }

    /** Caches a block unless it is cached already. Room is made first; nothing is dropped once the cache
        is within its limits, and its bytes stay below the limit plus this block. */
    method AddCacheBlock(h: Hash, b: CacheBlock) returns (ghost evicted: set<Hash>)
      requires Valid()
      modifies this`blocks, this`byPrev, this`byteCount
      ensures Valid() && Lowest(old(blocks), evicted)
      ensures h in old(blocks) ==> blocks == old(blocks)
      ensures h !in old(blocks) ==>
        blocks == (old(blocks) - evicted)[h := b] && byteCount < MAX_CACHE_CHN_BLOCK_SIZE + b.size
      ensures |old(blocks)| < MAX_CACHE_CHN_BLOCK_COUNT && old(byteCount) < MAX_CACHE_CHN_BLOCK_SIZE ==> evicted == {}
      ensures AllNeeded(old(blocks), evicted)
    {
      evicted := {};
      if h !in blocks {
        evicted := MakeRoom();
        EmptyHasNoBytes(blocks);
        IndexAdd(blocks, h, b);
        BytesAdd(blocks, h, b);
        byPrev := byPrev[b.prev := (if b.prev in byPrev then byPrev[b.prev] else {}) + {h}];
        blocks := blocks[h := b];
        byteCount := byteCount + b.size;
      }
    }

    method CollectTimedOut(cutoff: nat) returns (gone: set<Hash>)
      ensures gone == TimedOut(blocks, cutoff)
    {
      gone := {};
      var todo := blocks.Keys;
      while todo != {}
        invariant todo <= blocks.Keys
        invariant gone == set h | h in blocks && h !in todo && blocks[h].time < cutoff
        decreases |todo|
      {
        var h := Least(todo);
        if blocks[h].time < cutoff {
          gone := gone + {h};
        }
        todo := todo - {h};
      }
    }

    /** Drops blocks cached for more than a day, at most once a minute. The cut-off is computed in 64
        bits, so a clock in the first day of the epoch drops everything. */
    method ClearCacheTimeout(now: nat)
      requires Valid()
      modifies this
      ensures Valid()
      ensures blocks == WithoutTimedOut(old(blocks), old(lastCheck), now)
      ensures lastCheck == if old(lastCheck) + CHECK_INTERVAL > now then old(lastCheck) else now
    {
      if lastCheck + CHECK_INTERVAL <= now {
        lastCheck := now;
        var gone := CollectTimedOut((now - CACHE_SECONDS) % UINT64);
        RemoveAll(gone);
      }
    }

    /** Drops a block and its cached ancestors. */
    method RemoveLineage(h: Hash)
      requires Valid()
      modifies this`blocks, this`byPrev, this`byteCount
      ensures Valid()
      ensures blocks == old(blocks) - Lineage(old(blocks), h)
    {
      var next := h;
      while next in blocks
        invariant Valid()
        invariant blocks - Lineage(blocks, next) == old(blocks) - Lineage(old(blocks), h)
        decreases |blocks|
      {
        var prev := blocks[next].prev;
        LineageStep(blocks, next);
        RemoveCacheBlock(next);
        next := prev;
      }
      assert blocks - {} == blocks;
    }

    /** The chain has stored a block: its cached children are dispatched, in hash order, and dropped;
        so are the block itself and its cached ancestors, and what has timed out. */
    method AddNextBlock(prev: Hash, now: nat) returns (dispatched: seq<Hash>)
      requires Valid()
      modifies this
      ensures Valid()
      ensures dispatched == Ascending(Children(old(blocks), prev))
      ensures blocks == AfterStored(old(blocks), prev, old(lastCheck), now)
      ensures prev !in blocks && forall h :: h in blocks ==> blocks[h].prev != prev
    {
      NothingOfStoredLeft(blocks, prev, lastCheck, now);
      dispatched := DispatchChildren(prev);
      RemoveLineage(prev);
      ClearCacheTimeout(now);
    }

    method DispatchChildren(prev: Hash) returns (dispatched: seq<Hash>)
      requires Valid()
      modifies this`blocks, this`byPrev, this`byteCount
      ensures Valid()
      ensures dispatched == Ascending(Children(old(blocks), prev))
      ensures blocks == old(blocks) - Children(old(blocks), prev)
    {
      dispatched := [];
      NoIndexNoChildren(blocks, prev);
      if prev in byPrev {
        dispatched := Ascending(byPrev[prev]);
      }
      var gone := set h | h in dispatched;
      assert gone == Children(blocks, prev);
      RemoveAll(gone);
    }
  }

  // ---------------------------------------------------------------- whole runs

  datatype Event = Receive(h: Hash, b: CacheBlock) | ChainStored(h: Hash, now: nat)

  /** Whatever arrives in whatever order, the parent index is the exact inverse of the cached blocks,
      the byte counter is the sum of their sizes, and the count limit holds. */
  method Run(events: seq<Event>) returns (c: Cache)
    ensures fresh(c) && c.Valid()
    ensures forall p, h :: p in c.byPrev && h in c.byPrev[p] <==> h in c.blocks && c.blocks[h].prev == p
    ensures forall p :: p in c.byPrev ==> c.byPrev[p] != {}
  {
    c := new Cache();
    for i := 0 to |events|
      invariant fresh(c) && c.Valid()
    {
      match events[i]
      case Receive(h, b) =>
        ghost var evicted := c.AddCacheBlock(h, b);
      case ChainStored(h, now) =>
        var dispatched := c.AddNextBlock(h, now);
    }
    forall p, h ensures p in c.byPrev && h in c.byPrev[p] <==> h in c.blocks && c.blocks[h].prev == p {
      IndexIsInverse(c.blocks, p, h);
    }
    forall p | p in c.byPrev ensures c.byPrev[p] != {} {
      IndexIsInverse(c.blocks, p, 0);
    }
  }
}
