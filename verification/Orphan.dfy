/** COrphan (src/blockchain/schedule.cpp): the multimap from a missing parent to the received
    objects that wait for it, and the removal of a whole waiting branch. */
module Orphan {
  import opened Common

  /** A multimap: for each parent its children in insertion order, duplicates kept. */
  type Edges = map<Hash, seq<Hash>>

  /** The multimap has no entry for a parent without children. */
  ghost predicate NoEmpty(e: Edges) {
    forall p :: p in e ==> e[p] != []
  }

  /** The children of p: the multimap's equal_range. */
  function Next(e: Edges, p: Hash): seq<Hash> {
    if p in e then e[p] else []
  }

  /** The number of entries of the multimap. */
  function Size(e: Edges): nat {
    Total(map p | p in e :: |e[p]|)
  }

  function Without(s: seq<Hash>, h: Hash): (r: seq<Hash>)
    ensures forall x :: x in r <==> x in s && x != h
    ensures h !in s ==> r == s
  {
    if s == [] then []
    else if s[0] == h then Without(s[1..], h)
    else [s[0]] + Without(s[1..], h)
  }

  /** All entries but those whose value is h. */
  function Dropped(e: Edges, h: Hash): (r: Edges)
    ensures NoEmpty(r)
    ensures forall p, c :: c in Next(r, p) <==> c in Next(e, p) && c != h
  {
    map p | p in e && Without(e[p], h) != [] :: Without(e[p], h)
  }

  /** The multimap while Remove scans it: the keys in `todo` have not been treated yet. */
  ghost function DroppedSoFar(e: Edges, h: Hash, todo: set<Hash>): Edges {
    map p | p in e && (p in todo || Without(e[p], h) != []) :: if p in todo then e[p] else Without(e[p], h)
  }

  lemma DroppedStep(e: Edges, h: Hash, todo: set<Hash>, k: Hash)
    requires k in e && k in todo
    ensures k in DroppedSoFar(e, h, todo) && DroppedSoFar(e, h, todo)[k] == e[k]
    ensures DroppedSoFar(e, h, todo - {k}) ==
            if Without(e[k], h) == [] then DroppedSoFar(e, h, todo) - {k}
            else DroppedSoFar(e, h, todo)[k := Without(e[k], h)]
  {
  }

  lemma DroppedEnds(e: Edges, h: Hash)
    ensures DroppedSoFar(e, h, e.Keys) == e
    ensures DroppedSoFar(e, h, {}) == Dropped(e, h)
  {
  }

  // ---------------------------------------------------------------- reachability

  ghost predicate Path(e: Edges, p: seq<Hash>) {
    |p| >= 2 && forall i :: 0 <= i < |p| - 1 ==> p[i+1] in Next(e, p[i])
  }

  /** h is reached from root over one or more orphan edges. */
  ghost predicate Reaches(e: Edges, root: Hash, h: Hash) {
    exists p :: Path(e, p) && p[0] == root && p[|p|-1] == h
  }

  lemma ReachesChild(e: Edges, root: Hash, h: Hash)
    requires h in Next(e, root)
    ensures Reaches(e, root, h)
  {
    assert Path(e, [root, h]);
  }

  lemma ReachesFurther(e: Edges, root: Hash, h: Hash, c: Hash)
    requires Reaches(e, root, h) && c in Next(e, h)
    ensures Reaches(e, root, c)
  {
    var p :| Path(e, p) && p[0] == root && p[|p|-1] == h;
    var q := p + [c];
    assert forall i :: 0 <= i < |p| ==> q[i] == p[i];
    assert Path(e, q);
  }

  /** A set that holds root's children and is closed under children holds all that root reaches. */
  lemma ClosedHoldsReachable(e: Edges, root: Hash, s: set<Hash>, h: Hash)
    requires forall c :: c in Next(e, root) ==> c in s
    requires forall x, c :: x in s && c in Next(e, x) ==> c in s
    requires Reaches(e, root, h)
    ensures h in s
  {
    var p :| Path(e, p) && p[0] == root && p[|p|-1] == h;
    var i := 1;
    assert p[1] in Next(e, p[0]);
    while i < |p| - 1
      invariant 1 <= i <= |p| - 1 && p[i] in s
    {
      assert p[i+1] in Next(e, p[i]);
      i := i + 1;
    }
  }

  // ---------------------------------------------------------------- sizes

  lemma SizeErase(e: Edges, p: Hash)
    ensures Size(e) == |Next(e, p)| + Size(e - {p})
  {
    var m := map q | q in e :: |e[q]|;
    assert m - {p} == (map q | q in e - {p} :: |(e - {p})[q]|);
    if p in e {
      TotalRemove(m, p);
    } else {
      assert e - {p} == e;
    }
  }

  // ---------------------------------------------------------------- removing a branch

  /** rest is e without the edges that leave root or a hash in `gone`. */
  ghost predicate Left(e: Edges, root: Hash, rest: Edges, gone: seq<Hash>) {
    && (forall p :: p in rest <==> p in e && p != root && p !in gone)
    && (forall p :: p in rest ==> rest[p] == e[p])
  }

  /** The children of root and of the first i hashes are in the branch. */
  ghost predicate Closed(e: Edges, root: Hash, branch: seq<Hash>, i: nat)
    requires i <= |branch|
  {
    && (forall c :: c in Next(e, root) ==> c in branch)
    && (forall x, c :: x in branch[..i] && c in Next(e, x) ==> c in branch)
  }

  ghost predicate AllReached(e: Edges, root: Hash, branch: seq<Hash>) {
    forall h :: h in branch ==> Reaches(e, root, h)
  }

  /** What the loop of RemoveBranch keeps: i hashes have been treated. */
  ghost predicate Sweep(e: Edges, root: Hash, rest: Edges, branch: seq<Hash>, i: nat) {
    && i <= |branch| && NoDup(branch) && |branch| + Size(rest) <= Size(e)
    && AllReached(e, root, branch) && Left(e, root, rest, branch[..i]) && Closed(e, root, branch, i)
  }

  /** branch' is branch with those children of h that it did not have. */
  ghost predicate Grown(rest: Edges, h: Hash, branch: seq<Hash>, branch': seq<Hash>) {
    && branch <= branch' && NoDup(branch') && |branch'| <= |branch| + |Next(rest, h)|
    && (forall x :: x in branch' <==> x in branch || x in Next(rest, h))
  }

  lemma SweepStart(e: Edges, root: Hash, branch: seq<Hash>)
    requires Grown(e, root, [], branch)
    ensures Sweep(e, root, e - {root}, branch, 0)
  {
    SizeErase(e, root);
    forall h | h in branch ensures Reaches(e, root, h) {
      ReachesChild(e, root, h);
    }
  }

  lemma GrownReached(e: Edges, root: Hash, rest: Edges, branch: seq<Hash>, i: nat, branch': seq<Hash>)
    requires i < |branch| && AllReached(e, root, branch) && Left(e, root, rest, branch[..i]) &&
             Grown(rest, branch[i], branch, branch')
    ensures AllReached(e, root, branch')
  {
    forall h | h in branch' ensures Reaches(e, root, h) {
      if h !in branch {
        ReachesFurther(e, root, branch[i], h);
      }
    }
  }

  lemma GrownLeft(e: Edges, root: Hash, rest: Edges, branch: seq<Hash>, i: nat, branch': seq<Hash>)
    requires i < |branch| && Left(e, root, rest, branch[..i]) && branch <= branch'
    ensures Left(e, root, rest - {branch[i]}, branch'[..i+1])
  {
    assert branch'[..i+1] == branch[..i] + [branch[i]];
  }

  lemma GrownClosed(e: Edges, root: Hash, rest: Edges, branch: seq<Hash>, i: nat, branch': seq<Hash>)
    requires i < |branch| && NoDup(branch) && Left(e, root, rest, branch[..i]) && Closed(e, root, branch, i)
    requires Grown(rest, branch[i], branch, branch')
    ensures Closed(e, root, branch', i + 1)
  {
    assert branch'[..i+1] == branch[..i] + [branch[i]];
    assert branch[i] !in branch[..i];
  }

  lemma SweepStep(e: Edges, root: Hash, rest: Edges, branch: seq<Hash>, i: nat, branch': seq<Hash>)
    requires Sweep(e, root, rest, branch, i) && i < |branch| && Grown(rest, branch[i], branch, branch')
    ensures Sweep(e, root, rest - {branch[i]}, branch', i + 1)
  {
    SizeErase(rest, branch[i]);
    GrownReached(e, root, rest, branch, i, branch');
    GrownLeft(e, root, rest, branch, i, branch');
    GrownClosed(e, root, rest, branch, i, branch');
  }

  lemma SweepEnd(e: Edges, root: Hash, rest: Edges, branch: seq<Hash>)
    requires Sweep(e, root, rest, branch, |branch|)
    ensures Left(e, root, rest, branch) && forall h :: h in branch <==> Reaches(e, root, h)
  {
    assert branch[..|branch|] == branch;
    forall h | Reaches(e, root, h) ensures h in branch {
      ClosedHoldsReachable(e, root, (set x | x in branch), h);
    }
  }

  // ---------------------------------------------------------------- the class

  class OrphanMap {
    var byPrev: Edges

    ghost predicate Valid()
      reads this
    {
      NoEmpty(byPrev)
    }

    constructor ()
      ensures Valid() && byPrev == map[]
    {
      byPrev := map[];
    }

    method AddNew(prev: Hash, hash: Hash)
      requires Valid()
      modifies this
      ensures Valid()
      ensures byPrev == old(byPrev)[prev := Next(old(byPrev), prev) + [hash]]
    {
      byPrev := byPrev[prev := Next(byPrev, prev) + [hash]];
    }

    /** Erases every entry whose value is hash. */
    method Remove(hash: Hash)
      requires Valid()
      modifies this
      ensures Valid()
      ensures byPrev == Dropped(old(byPrev), hash)
    {
      ghost var e := byPrev;
      DroppedEnds(e, hash);
      var todo := byPrev.Keys;
      while todo != {}
        invariant todo <= e.Keys
        invariant byPrev == DroppedSoFar(e, hash, todo)
        decreases |todo|
      {
        var k := Least(todo);
        DroppedStep(e, hash, todo, k);
        var kept := Without(byPrev[k], hash);
        if kept == [] {
          byPrev := byPrev - {k};
        } else {
          byPrev := byPrev[k := kept];
        }
        todo := todo - {k};
      }
    }

    /** Appends to `branch` the children of prev that `seen` does not hold yet, each once. */
    method GetNext(prev: Hash, branch: seq<Hash>, seen: set<Hash>) returns (r: seq<Hash>, seen': set<Hash>)
      requires NoDup(branch) && forall h :: h in branch <==> h in seen
      ensures Grown(byPrev, prev, branch, r) && forall h :: h in r <==> h in seen'
    {
      var children := Next(byPrev, prev);
      r, seen' := branch, seen;
      var i := 0;
      while i < |children|
        invariant 0 <= i <= |children|
        invariant branch <= r && |r| <= |branch| + i && NoDup(r)
        invariant forall h :: h in r <==> h in seen'
        invariant forall h :: h in seen' <==> h in seen || h in children[..i]
      {
        if children[i] !in seen' {
          seen' := seen' + {children[i]};
          r := r + [children[i]];
        }
        assert children[..i+1] == children[..i] + [children[i]];
        i := i + 1;
      }
      assert children[..i] == children;
    }

    /** Returns every hash that root reaches over orphan edges, each once, and erases exactly the
        edges that leave root or a returned hash. The vector never outgrows the capacity reserved
        for it, so the reference taken to its i-th element stays good while it grows. */
    method RemoveBranch(root: Hash) returns (branch: seq<Hash>)
      requires Valid()
      modifies this
      ensures Valid() && NoDup(branch) && |branch| <= Size(old(byPrev))
      ensures forall h :: h in branch <==> Reaches(old(byPrev), root, h)
      ensures Left(old(byPrev), root, byPrev, branch)
    {
      ghost var e := byPrev;
      var capacity := Size(byPrev);
      var seen: set<Hash>;
      branch, seen := GetNext(root, [], {});
      SweepStart(e, root, branch);
      byPrev := byPrev - {root};
      var i := 0;
      while i < |branch|
        invariant Sweep(e, root, byPrev, branch, i)
        invariant forall h :: h in branch <==> h in seen
        decreases capacity - i
      {
        var hash := branch[i];
        ghost var before := branch;
        branch, seen := GetNext(hash, branch, seen);
        SweepStep(e, root, byPrev, before, i, branch);
        byPrev := byPrev - {hash};
        i := i + 1;
      }
      SweepEnd(e, root, byPrev, branch);
    }
  }
}
