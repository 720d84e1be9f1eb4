/** CDelegatedChannelChain (src/blockchain/delegatedchn.cpp): the window of recent primary blocks for
    which delegates exchange distribute and publish data, and the bitmaps that tell peers what is
    still missing. */
module Bulletin {
  import opened Common

  type Data = seq<bv8>

  // ---------------------------------------------------------------- 64-bit bitmaps

  /** A uint64 as its 64 bits, least significant first. */
  type Bits = b: seq<bool> | |b| == 64 witness seq(64, _ => false)

  const NoBits: Bits := seq(64, _ => false)

  function And(a: Bits, b: Bits): Bits {
    seq(64, i requires 0 <= i < 64 => a[i] && b[i])
  }

  function Xor(a: Bits, b: Bits): Bits {
    seq(64, i requires 0 <= i < 64 => a[i] != b[i])
  }

  /** Bit i says whether the i-th enrolled delegate's data is present. Shifting by 64 or more is
      undefined in the source, hence the bound. */
  method GetBitmap(enrolled: seq<Dest>, data: map<Dest, Data>) returns (bits: Bits)
    requires |enrolled| <= 64
    ensures bits == BitmapOf(enrolled, data)
  {
    bits := NoBits;
    for i := 0 to |enrolled|
      invariant forall j :: 0 <= j < 64 ==> bits[j] == (j < i && enrolled[j] in data)
    {
      bits := bits[i := bits[i] || enrolled[i] in data];
    }
  }

  ghost function BitmapOf(enrolled: seq<Dest>, data: map<Dest, Data>): Bits {
    seq(64, i requires 0 <= i < 64 => i < |enrolled| && enrolled[i] in data)
  }

  method GetKnownData(enrolled: seq<Dest>, bits: Bits) returns (r: set<Dest>)
    requires |enrolled| <= 64
    ensures r == Selected(enrolled, bits)
  {
    r := {};
    for i := 0 to |enrolled|
      invariant r == set j | 0 <= j < i && bits[j] :: enrolled[j]
    {
      if bits[i] {
        r := r + {enrolled[i]};
      }
    }
  }

  ghost function Selected(enrolled: seq<Dest>, bits: Bits): set<Dest>
    requires |enrolled| <= 64
  {
    set j | 0 <= j < |enrolled| && bits[j] :: enrolled[j]
  }

  /** The enrolled delegates whose bit the peer has set and whose data we lack. */
  ghost function Missing(enrolled: seq<Dest>, ours: map<Dest, Data>, peer: Bits): set<Dest>
    requires |enrolled| <= 64
  {
    set i | 0 <= i < |enrolled| && peer[i] && enrolled[i] !in ours :: enrolled[i]
  }

  method AskFor(enrolled: seq<Dest>, ours: map<Dest, Data>, peer: Bits) returns (r: set<Dest>)
    requires |enrolled| <= 64
    ensures r == Missing(enrolled, ours, peer)
  {
    var bits := GetBitmap(enrolled, ours);
    r := GetKnownData(enrolled, Xor(And(bits, peer), peer));
  }

  /** When the peer's bitmap describes its data over the same enrolment, the answer is exactly what
      the peer has and we lack. */
  lemma AskIsDifference(enrolled: seq<Dest>, ours: map<Dest, Data>, theirs: map<Dest, Data>)
    requires |enrolled| <= 64
    ensures Missing(enrolled, ours, BitmapOf(enrolled, theirs)) == set d | d in enrolled && d in theirs && d !in ours
  {
    var l := Missing(enrolled, ours, BitmapOf(enrolled, theirs));
    forall d | d in enrolled && d in theirs && d !in ours ensures d in l {
      var i :| 0 <= i < |enrolled| && enrolled[i] == d;
      assert BitmapOf(enrolled, theirs)[i];
    }
  }

  // ---------------------------------------------------------------- the window

  datatype ChainData = ChainData(distribute: map<Dest, Data>, publish: map<Dest, Data>, enrolled: seq<Dest>)

  const NoData := ChainData(map[], map[], [])

  type Window = map<Hash, ChainData>

  /** Subscripting the map creates missing entries. */
  function DataAt(data: Window, h: Hash): ChainData {
    if h in data then data[h] else NoData
  }

  ghost function Elems(s: seq<Hash>): set<Hash> {
    set h | h in s
  }

  ghost function Reverse(s: seq<Hash>): seq<Hash> {
    seq(|s|, i requires 0 <= i < |s| => s[|s| - 1 - i])
  }

  /** The anchors left when the tip moves to height `start` before new blocks are added: none after a
      jump ahead, else those at or below it. The first of the list is the newest. */
  ghost function RolledBack(list: seq<Hash>, last: int, start: int): (r: seq<Hash>) {
    if last < start then []
    else if last - start >= |list| then []
    else list[last - start..]
  }

  /** Publish data is held for the oldest anchor only. */
  ghost predicate PublishAtOldest(data: Window, list: seq<Hash>) {
    forall h :: h in data && data[h].publish != map[] ==> list != [] && h == list[|list| - 1]
  }

  /** Entries that no anchor of the window explains. They hold distribute data only. */
  ghost function Strays(data: Window, list: seq<Hash>): set<Hash> {
    data.Keys - Elems(list)
  }

  ghost predicate StraysBare(data: Window, list: seq<Hash>) {
    forall h :: h in data && h !in list ==> data[h].enrolled == []
  }

  ghost predicate WindowOk(data: Window, list: seq<Hash>) {
    Elems(list) <= data.Keys && NoDup(list) && PublishAtOldest(data, list) && StraysBare(data, list)
  }

  /** The listed anchors are the blocks of the primary chain at `last`, `last - 1`, and so on. */
  ghost predicate OnChain(list: seq<Hash>, last: int, main: int -> Option<Hash>) {
    forall i :: 0 <= i < |list| ==> main(last - i) == Some(list[i])
  }

  ghost function NoChain(): int -> Option<Hash> {
    _ => None
  }

  /** The primary chain after blocks above `start` were replaced by the given ones. */
  ghost function Rechained(main: int -> Option<Hash>, start: int, added: seq<Hash>): int -> Option<Hash> {
    h => if h <= start then main(h) else if h <= start + |added| then Some(added[h - start - 1]) else None
  }

  lemma OnChainRolledBack(list: seq<Hash>, last: int, main: int -> Option<Hash>, start: int)
    requires OnChain(list, last, main)
    ensures OnChain(RolledBack(list, last, start), start, main)
  {
    var kept := RolledBack(list, last, start);
    forall i | 0 <= i < |kept| ensures main(start - i) == Some(kept[i]) {
      assert main(last - (last - start + i)) == Some(list[last - start + i]);
    }
  }

  lemma OnChainPushed(kept: seq<Hash>, main: int -> Option<Hash>, start: int, added: seq<Hash>)
    requires OnChain(kept, start, main)
    ensures OnChain(Reverse(added) + kept, start + |added|, Rechained(main, start, added))
  {
    var full := Reverse(added) + kept;
    forall i | 0 <= i < |full| ensures Rechained(main, start, added)(start + |added| - i) == Some(full[i]) {
      if i < |added| {
        assert full[i] == added[|added| - 1 - i];
      } else {
        var j := i - |added|;
        assert full[i] == kept[j];
        assert main(start - j) == Some(kept[j]);
      }
    }
  }

  /** The window after an update lies on the updated chain. */
  lemma OnChainAfter(list: seq<Hash>, last: int, main: int -> Option<Hash>, start: int, es: seq<Enrolment>, limit: nat)
    requires OnChain(list, last, main)
    ensures OnChain(Newest(Candidates(list, last, start, es), limit), start + |es|, Rechained(main, start, Hashes(es)))
  {
    OnChainRolledBack(list, last, main, start);
    OnChainPushed(RolledBack(list, last, start), main, start, Hashes(es));
  }

  /** The anchors of the new window before the oldest are dropped, newest first. */
  ghost function Candidates(list: seq<Hash>, last: int, start: int, es: seq<Enrolment>): seq<Hash> {
    Reverse(Hashes(es)) + RolledBack(list, last, start)
  }

  function Newest(list: seq<Hash>, limit: nat): seq<Hash> {
    if |list| <= limit then list else list[..limit]
  }

  /** The anchors listed, newest first, and the height of the newest. */
  datatype Listing = Listing(list: seq<Hash>, last: int)

  ghost function Moved(interval: nat, w: Listing, start: int, es: seq<Enrolment>): Listing {
    Listing(Newest(Candidates(w.list, w.last, start, es), interval + 1), start + |es|)
  }

  lemma NewestWithoutBack(list: seq<Hash>, limit: nat)
    requires |list| > limit
    ensures Newest(list[..|list| - 1], limit) == Newest(list, limit)
  {
  }

  /** One update: the blocks' hashes with their enrolment, oldest first. */
  datatype Enrolment = Enrolment(hash: Hash, weights: map<Dest, nat>)
  datatype Distribution = Distribution(anchor: Hash, items: map<Dest, Data>)

  ghost function Hashes(es: seq<Enrolment>): (r: seq<Hash>)
    ensures |r| == |es| && forall i :: 0 <= i < |es| ==> r[i] == es[i].hash
  {
    seq(|es|, i requires 0 <= i < |es| => es[i].hash)
  }

  /** New blocks have hashes of their own. */
  ghost predicate Fresh(added: seq<Hash>, list: seq<Hash>) {
    NoDup(added) && forall h :: h in added ==> h !in list
  }

  ghost predicate Anchored(ds: seq<Distribution>, list: seq<Hash>) {
    forall i :: 0 <= i < |ds| ==> ds[i].anchor in list
  }

  function Placed(data: Window, h: Hash, enrolled: seq<Dest>): Window {
    data[h := DataAt(data, h).(enrolled := enrolled)]
  }

  lemma PushFront(data: Window, list: seq<Hash>, h: Hash, enrolled: seq<Dest>)
    requires WindowOk(data, list) && h !in list
    ensures WindowOk(Placed(data, h, enrolled), [h] + list)
    ensures Strays(Placed(data, h, enrolled), [h] + list) == Strays(data, list) - {h}
  {
    if list != [] {
      assert ([h] + list)[|list|] == list[|list| - 1];
    }
  }

  lemma BackElems(list: seq<Hash>)
    requires NoDup(list) && list != []
    ensures Elems(list[..|list| - 1]) == Elems(list) - {list[|list| - 1]}
  {
    var n := |list| - 1;
    assert list == list[..n] + [list[n]];
    assert list[n] !in list[..n];
  }

  lemma DropBack(data: Window, list: seq<Hash>)
    requires WindowOk(data, list) && |list| >= 2
    ensures WindowOk(data - {list[|list| - 1]}, list[..|list| - 1])
    ensures Strays(data - {list[|list| - 1]}, list[..|list| - 1]) == Strays(data, list)
  {
    BackElems(list);
    assert NoDup(list[..|list| - 1]);
  }

  lemma FrontElems(list: seq<Hash>)
    requires NoDup(list) && list != []
    ensures Elems(list[1..]) == Elems(list) - {list[0]}
  {
    assert list == [list[0]] + list[1..];
    assert list[0] !in list[1..];
  }

  lemma DropFront(data: Window, list: seq<Hash>)
    requires WindowOk(data, list) && list != []
    ensures WindowOk(data - {list[0]}, list[1..])
    ensures Strays(data - {list[0]}, list[1..]) == Strays(data, list)
  {
    FrontElems(list);
    assert NoDup(list[1..]);
  }

  ghost predicate PartOf(data: Window, whole: Window) {
    forall h :: h in data ==> h in whole && data[h] == whole[h]
  }

  /** The entries left when the tip moves to height `start`: those of the anchors kept and, unless the tip
      jumps ahead, those of no anchor. */
  ghost function KeptData(data: Window, list: seq<Hash>, last: int, start: int): Window {
    map h | h in data && (h in RolledBack(list, last, start) || (last >= start && h !in list)) :: data[h]
  }

  lemma KeptIs(data: Window, list: seq<Hash>, last: int, start: int, data': Window, list': seq<Hash>)
    requires WindowOk(data, list) && WindowOk(data', list') && PartOf(data', data)
    requires list' == RolledBack(list, last, start)
    requires Strays(data', list') == if last < start then {} else Strays(data, list)
    ensures data' == KeptData(data, list, last, start)
  {
    forall h ensures h in data' <==> h in KeptData(data, list, last, start) {
      assert h in Elems(list') <==> h in list';
      assert h in Strays(data', list') <==> h in data' && h !in list';
      assert h in Strays(data, list) <==> h in data && h !in list;
    }
  }

  /** The entries are those of the model, with the publish data added at the oldest anchor of a full
      window if that is the one it is for. Data that is there already is kept. */
  ghost predicate StoredAs(data: Window, model: Window, list: seq<Hash>, interval: nat, publish: map<Dest, Data>,
      anchor: Hash) {
    forall h :: h in data ==>
      && h in model
      && data[h] == if |list| == interval + 1 && h == anchor == list[interval]
                    then model[h].(publish := publish + model[h].publish) else model[h]
  }

  class DelegateWindow {
    const interval: nat
    var data: Window
    var list: seq<Hash>
    var last: int

    ghost predicate Valid()
      reads this
    {
      WindowOk(data, list) && |list| <= interval + 1
    }

    constructor (interval: nat)
      ensures Valid() && data == map[] && list == [] && last == -1 && this.interval == interval
    {
      this.interval := interval;
      data, list, last := map[], [], -1;
    }

    method Clear()
      modifies this`data, this`list, this`last
      ensures data == map[] && list == [] && last == -1
    {
      data, list, last := map[], [], -1;
    }

    /** Drops the anchors above the new start. */
    method Rollback(start: int)
      requires WindowOk(data, list)
      modifies this`data, this`list, this`last
      ensures WindowOk(data, list) && last == start
      ensures list == RolledBack(old(list), old(last), start)
      ensures Strays(data, list) == if old(last) < start then {} else old(Strays(data, list))
      ensures data == KeptData(old(data), old(list), old(last), start)
    {
      if last < start {
        Clear();
      }
      ghost var list0, last0, strays := list, last, Strays(data, list);
      while last > start && list != []
        invariant WindowOk(data, list) && Strays(data, list) == strays && last <= last0 &&
                  (last0 >= start ==> last >= start)
        invariant last0 - last <= |list0| && list == list0[last0 - last..]
        invariant PartOf(data, old(data))
        decreases |list|
      {
        DropFront(data, list);
        data := data - {list[0]};
        list := list[1..];
        last := last - 1;
      }
      last := start;
      KeptIs(old(data), old(list), old(last), start, data, list);
    }

    method PushOne(h: Hash, delegates: seq<Dest>)
      requires WindowOk(data, list) && h !in list
      modifies this`data, this`list, this`last
      ensures WindowOk(data, list) && last == old(last) + 1 && list == [h] + old(list)
      ensures data == Placed(old(data), h, delegates)
      ensures Strays(data, list) == old(Strays(data, list)) - {h}
    {
      var d := DataAt(data, h);
      assert d.enrolled + delegates == delegates;
      PushFront(data, list, h, delegates);
      data := data[h := d.(enrolled := d.enrolled + delegates)];
      list := [h] + list;
      last := last + 1;
    }

    /** Puts the new blocks in front, each with its delegates in key order. */
    method Push(es: seq<Enrolment>)
      requires WindowOk(data, list) && Fresh(Hashes(es), list)
      modifies this`data, this`list, this`last
      ensures WindowOk(data, list) && last == old(last) + |es|
      ensures list == Reverse(Hashes(es)) + old(list)
      ensures data == Pushed(old(data), es)
      ensures Strays(data, list) == old(Strays(data, list)) - Elems(Hashes(es))
    {
      ghost var list0, data0, strays := list, data, Strays(data, list);
      var i := 0;
      while i < |es|
        invariant 0 <= i <= |es|
        invariant WindowOk(data, list) && last == old(last) + i
        invariant list == Reverse(Hashes(es[..i])) + list0
        invariant data == Pushed(data0, es[..i])
        invariant Strays(data, list) == strays - Elems(Hashes(es[..i]))
      {
        PushStep(es, i, list0);
        PushedStep(es, i, data0);
        HashesGrow(es, i);
        PushOne(es[i].hash, Ascending(es[i].weights.Keys));
        i := i + 1;
      }
      assert es[..i] == es;
    }

    /** Adds distribute data; what an anchor already holds is kept. */
    method Distribute(ds: seq<Distribution>)
      modifies this`data
      ensures data == Distributed(old(data), ds)
    {
      ghost var data0 := data;
      var i := 0;
      while i < |ds|
        invariant 0 <= i <= |ds|
        invariant data == Distributed(data0, ds[..i])
      {
        assert ds[..i+1][..i] == ds[..i];
        var d := DataAt(data, ds[i].anchor);
        data := data[ds[i].anchor := d.(distribute := ds[i].items + d.distribute)];
        i := i + 1;
      }
      assert ds[..i] == ds;
    }

    /** Keeps the newest anchors only. */
    method Evict()
      requires WindowOk(data, list)
      modifies this`data, this`list
      ensures WindowOk(data, list) && list == Newest(old(list), interval + 1)
      ensures Strays(data, list) == old(Strays(data, list)) && PartOf(data, old(data))
      ensures forall model :: EnrolledAs(old(data), old(list), model) ==> EnrolledAs(data, list, model)
    {
      ghost var newest, strays := Newest(list, interval + 1), Strays(data, list);
      while |list| > interval + 1
        invariant WindowOk(data, list) && Strays(data, list) == strays && PartOf(data, old(data))
        invariant Newest(list, interval + 1) == newest
        invariant forall model :: EnrolledAs(old(data), old(list), model) ==> EnrolledAs(data, list, model)
        decreases |list|
      {
        DropBack(data, list);
        EnrolledWithoutBack(data, list);
        NewestWithoutBack(list, interval + 1);
        data := data - {list[|list| - 1]};
        list := list[..|list| - 1];
      }
    }

    /** Publish data is accepted for the oldest anchor of a full window only. */
    method PublishAt(anchor: Hash, items: map<Dest, Data>)
      requires WindowOk(data, list)
      modifies this`data
      ensures WindowOk(data, list) && data.Keys == old(data).Keys
      ensures if |list| == interval + 1 && anchor == list[interval] then
                anchor in old(data) && data == old(data)[anchor :=
                    old(data)[anchor].(publish := items + old(data)[anchor].publish)]
              else data == old(data)
    {
      if |list| == interval + 1 && anchor == list[interval] && items != map[] {
        assert anchor in Elems(list);
        var d := DataAt(data, anchor);
        data := data[anchor := d.(publish := items + d.publish)];
        assert data.Keys == old(data).Keys;
      } else if |list| == interval + 1 && anchor == list[interval] {
        assert anchor in Elems(list);
        assert map[] + data[anchor].publish == data[anchor].publish;
        assert data == data[anchor := data[anchor]];
      }
    }

    /** The primary chain moved: blocks above `start` are replaced by the given ones, and the window
        holds the newest `interval + 1` of them and of the anchors kept. What is left over are the
        entries, old or just distributed, that name no candidate anchor. */
    method Update(start: int, es: seq<Enrolment>, ds: seq<Distribution>, publish: map<Dest, Data>, publishAnchor: Hash)
      requires Valid() && Fresh(Hashes(es), RolledBack(list, last, start))
      modifies this
      ensures Valid() && Listing(list, last) == Moved(interval, Listing(old(list), old(last)), start, es)
      ensures Strays(data, list) == LeftOver(old(Strays(data, list)), old(list), old(last), start, es, ds)
      ensures EnrolledAs(data, list, Pushed(old(data), es))
      ensures StoredAs(data, Distributed(Pushed(KeptData(old(data), old(list), old(last), start), es), ds), list,
                interval, publish, publishAnchor)
    {
      ghost var model := Pushed(data, es);
      Extend(start, es, ds);
      Slide(publish, publishAnchor, model);
    }

    /** Evict, then take the publish data. */
    method Slide(publish: map<Dest, Data>, publishAnchor: Hash, ghost model: Window)
      requires WindowOk(data, list) && EnrolledAs(data, list, model)
      modifies this`data, this`list
      ensures WindowOk(data, list) && EnrolledAs(data, list, model)
      ensures list == Newest(old(list), interval + 1) && Strays(data, list) == old(Strays(data, list))
      ensures StoredAs(data, old(data), list, interval, publish, publishAnchor)
    {
      Evict();
      ghost var newest := data;
      PublishAt(publishAnchor, publish);
      EnrolledShrinks(newest, data, list);
    }

    /** Roll back, push, distribute. */
    method Extend(start: int, es: seq<Enrolment>, ds: seq<Distribution>)
      requires WindowOk(data, list) && Fresh(Hashes(es), RolledBack(list, last, start))
      modifies this`data, this`list, this`last
      ensures WindowOk(data, list)
      ensures list == Candidates(old(list), old(last), start, es) && last == start + |es|
      ensures Strays(data, list) == LeftOver(old(Strays(data, list)), old(list), old(last), start, es, ds)
      ensures EnrolledAs(data, list, Pushed(old(data), es))
      ensures data == Distributed(Pushed(KeptData(old(data), old(list), old(last), start), es), ds)
    {
      ghost var model, list0, last0, strays := Pushed(data, es), list, last, Strays(data, list);
      Reach(start, es, model);
      ghost var strays' := Strays(data, list);
      DistributedWindow(data, list, ds, model);
      Distribute(ds);
      LeftOverIs(strays, strays', list0, last0, start, es, ds);
    }

    method Reach(start: int, es: seq<Enrolment>, ghost model: Window)
      requires WindowOk(data, list) && Fresh(Hashes(es), RolledBack(list, last, start)) && model == Pushed(data, es)
      modifies this`data, this`list, this`last
      ensures WindowOk(data, list) && EnrolledAs(data, list, model)
      ensures list == Candidates(old(list), old(last), start, es) && last == start + |es|
      ensures Strays(data, list) == (if old(last) < start then {} else old(Strays(data, list))) - Elems(Hashes(es))
      ensures data == Pushed(KeptData(old(data), old(list), old(last), start), es)
    {
      ghost var before := data;
      Rollback(start);
      ghost var kept := data;
      Push(es);
      EnrolledAgree(kept, before, es, data, list);
    }

    method InsertDistributeData(anchor: Hash, dest: Dest, item: Data) returns (inserted: bool)
      requires Valid()
      modifies this`data
      ensures Valid()
      ensures inserted <==> anchor in old(data) && dest !in old(data)[anchor].distribute
      ensures data.Keys == old(data).Keys
      ensures inserted ==> data == old(data)[anchor :=
              old(data)[anchor].(distribute := old(data)[anchor].distribute[dest := item])]
      ensures !inserted ==> data == old(data)
    {
      inserted := anchor in data && dest !in data[anchor].distribute;
      if inserted {
        data := data[anchor := data[anchor].(distribute := data[anchor].distribute[dest := item])];
        assert data.Keys == old(data).Keys;
      }
    }

    method InsertPublishData(anchor: Hash, dest: Dest, item: Data) returns (inserted: bool)
      requires Valid()
      modifies this`data
      ensures Valid()
      ensures inserted <==>
        |list| == interval + 1 && list[interval] == anchor && anchor in old(data) && dest !in old(data)[anchor].publish
      ensures data.Keys == old(data).Keys
      ensures inserted ==> data == old(data)[anchor :=
              old(data)[anchor].(publish := old(data)[anchor].publish[dest := item])]
      ensures !inserted ==> data == old(data)
    {
      inserted := false;
      if |list| == interval + 1 && list[interval] == anchor && anchor in data {
        inserted := dest !in data[anchor].publish;
        if inserted {
          data := data[anchor := data[anchor].(publish := data[anchor].publish[dest := item])];
          assert data.Keys == old(data).Keys;
        }
      }
    }

    /** The distribute data to ask a peer for at an anchor. */
    method AskForDistribute(anchor: Hash, peer: Bits) returns (r: set<Dest>)
      requires forall h :: h in data ==> |data[h].enrolled| <= 64
      ensures r == if anchor in data then Missing(data[anchor].enrolled, data[anchor].distribute, peer) else {}
    {
      r := {};
      if anchor in data {
        r := AskFor(data[anchor].enrolled, data[anchor].distribute, peer);
      }
    }

    /** The publish data to ask a peer for; only the oldest anchor of a full window is open. */
    method AskForPublish(anchor: Hash, peer: Bits) returns (r: set<Dest>)
      requires forall h :: h in data ==> |data[h].enrolled| <= 64
      ensures r == if |list| == interval + 1 && list[interval] == anchor && anchor in data
                   then Missing(data[anchor].enrolled, data[anchor].publish, peer) else {}
    {
      r := {};
      if |list| == interval + 1 && anchor == list[interval] {
        if anchor in data {
          r := AskFor(data[anchor].enrolled, data[anchor].publish, peer);
        }
      }
    }
  }

  ghost predicate EnrolledAs(data: Window, list: seq<Hash>, model: Window) {
    forall h :: h in list ==> h in data && h in model && data[h].enrolled == model[h].enrolled
  }

  lemma EnrolledWithoutBack(data: Window, list: seq<Hash>)
    requires WindowOk(data, list) && list != []
    ensures forall model :: EnrolledAs(data, list, model) ==>
            EnrolledAs(data - {list[|list| - 1]}, list[..|list| - 1], model)
  {
    var n := |list| - 1;
    assert list == list[..n] + [list[n]];
    assert list[n] !in list[..n];
  }

  lemma EnrolledShrinks(data: Window, data': Window, list: seq<Hash>)
    requires data'.Keys == data.Keys && forall h :: h in data ==> data'[h].enrolled == data[h].enrolled
    ensures forall model :: EnrolledAs(data, list, model) ==> EnrolledAs(data', list, model)
  {
  }

  /** The stray entries after an update. */
  ghost function LeftOver(strays: set<Hash>, list: seq<Hash>, last: int, start: int, es: seq<Enrolment>,
      ds: seq<Distribution>): set<Hash> {
    (if last < start then {} else strays) + Anchors(ds) - Elems(Candidates(list, last, start, es))
  }

  lemma LeftOverIs(strays: set<Hash>, strays': set<Hash>, list: seq<Hash>, last: int, start: int, es: seq<Enrolment>,
      ds: seq<Distribution>)
    requires strays !! Elems(list) && strays' == (if last < start then {} else strays) - Elems(Hashes(es))
    ensures strays' + (Anchors(ds) - Elems(Candidates(list, last, start, es))) ==
            LeftOver(strays, list, last, start, es, ds)
  {
    CandidateElems(list, last, start, es);
    assert Elems(RolledBack(list, last, start)) <= Elems(list);
  }

  lemma CandidateElems(list: seq<Hash>, last: int, start: int, es: seq<Enrolment>)
    ensures Elems(Candidates(list, last, start, es)) == Elems(Hashes(es)) + Elems(RolledBack(list, last, start))
  {
    var hs, rest := Hashes(es), RolledBack(list, last, start);
    forall h ensures h in Candidates(list, last, start, es) <==> h in hs || h in rest {
      if h in hs {
        var i :| 0 <= i < |hs| && hs[i] == h;
        assert Reverse(hs)[|hs| - 1 - i] == h;
        assert Candidates(list, last, start, es)[|hs| - 1 - i] == h;
      }
    }
  }

  /** Without strays before, the entries are exactly the window's anchors after the update if and only
      if every distribution names a candidate anchor. */
  lemma KeysAreAnchorsIff(list: seq<Hash>, last: int, start: int, es: seq<Enrolment>, ds: seq<Distribution>)
    ensures LeftOver({}, list, last, start, es, ds) == {} <==> Anchored(ds, Candidates(list, last, start, es))
  {
    AnchoredIff(ds, Candidates(list, last, start, es));
  }

  /** The other side: a distribution for a block the window has never seen stays behind. */
  lemma StrayDistribution(anchor: Hash, items: map<Dest, Data>)
    ensures LeftOver({}, [], -1, -1, [], [Distribution(anchor, items)]) == {anchor}
  {
    assert Anchors([Distribution(anchor, items)]) == {anchor} by {
      assert [Distribution(anchor, items)][0].anchor == anchor;
    }
    assert Candidates([], -1, -1, []) == [];
  }

  lemma EnrolledAgree(kept: Window, before: Window, es: seq<Enrolment>, data: Window, list: seq<Hash>)
    requires data == Pushed(kept, es) && WindowOk(data, list)
    requires forall h :: h in kept ==> h in before && kept[h] == before[h]
    ensures EnrolledAs(data, list, Pushed(before, es))
  {
    forall h | h in list ensures h in data && h in Pushed(before, es) &&
        data[h].enrolled == Pushed(before, es)[h].enrolled {
      assert h in Elems(list);
      PushedAgree(kept, before, es, h);
    }
  }

  lemma DistributedWindow(data: Window, list: seq<Hash>, ds: seq<Distribution>, model: Window)
    requires WindowOk(data, list) && EnrolledAs(data, list, model)
    ensures WindowOk(Distributed(data, ds), list) && EnrolledAs(Distributed(data, ds), list, model)
    ensures Strays(Distributed(data, ds), list) == Strays(data, list) + (Anchors(ds) - Elems(list))
  {
    DistributedKeeps(data, ds);
  }

  ghost function Pushed(data: Window, es: seq<Enrolment>): Window {
    if es == [] then data
    else
      var e := es[|es| - 1];
      Placed(Pushed(data, es[..|es| - 1]), e.hash, Ascending(e.weights.Keys))
  }

  lemma PushedStep(es: seq<Enrolment>, i: nat, data: Window)
    requires i < |es|
    ensures Pushed(data, es[..i+1]) == Placed(Pushed(data, es[..i]), es[i].hash, Ascending(es[i].weights.Keys))
  {
    assert es[..i+1][..i] == es[..i];
  }

  lemma HashesGrow(es: seq<Enrolment>, i: nat)
    requires i < |es|
    ensures Elems(Hashes(es[..i+1])) == Elems(Hashes(es[..i])) + {es[i].hash}
  {
    HashesSlice(es, i);
    HashesSlice(es, i + 1);
    assert Hashes(es)[..i+1] == Hashes(es)[..i] + [es[i].hash];
  }

  lemma HashesSlice(es: seq<Enrolment>, i: nat)
    requires i <= |es|
    ensures Hashes(es[..i]) == Hashes(es)[..i]
  {
  }

  lemma PushStep(es: seq<Enrolment>, i: nat, list: seq<Hash>)
    requires i < |es| && Fresh(Hashes(es), list)
    ensures Reverse(Hashes(es[..i+1])) + list == [es[i].hash] + (Reverse(Hashes(es[..i])) + list)
    ensures es[i].hash !in Reverse(Hashes(es[..i])) + list
  {
    HashesSlice(es, i);
    HashesSlice(es, i + 1);
    assert Hashes(es)[i] in Hashes(es);
    ReverseStep(Hashes(es), i, list);
  }

  lemma ReverseStep(s: seq<Hash>, i: nat, tail: seq<Hash>)
    requires i < |s|
    ensures Reverse(s[..i+1]) + tail == [s[i]] + (Reverse(s[..i]) + tail)
    ensures NoDup(s) && s[i] !in tail ==> s[i] !in Reverse(s[..i]) + tail
  {
    var a, b := Reverse(s[..i+1]), [s[i]] + Reverse(s[..i]);
    assert forall k :: 0 <= k < |a| ==> a[k] == b[k];
    assert a == b;
    if NoDup(s) {
      forall k | 0 <= k < i ensures Reverse(s[..i])[k] != s[i] {
      }
    }
  }

  ghost function Distributed(data: Window, ds: seq<Distribution>): Window {
    if ds == [] then data
    else
      var before := Distributed(data, ds[..|ds| - 1]);
      var d := ds[|ds| - 1];
      var at := DataAt(before, d.anchor);
      before[d.anchor := at.(distribute := d.items + at.distribute)]
  }

  ghost function Anchors(ds: seq<Distribution>): set<Hash> {
    set i | 0 <= i < |ds| :: ds[i].anchor
  }

  lemma AnchorsLast(ds: seq<Distribution>)
    requires ds != []
    ensures Anchors(ds) == Anchors(ds[..|ds| - 1]) + {ds[|ds| - 1].anchor}
  {
    var n := |ds| - 1;
    forall h ensures h in Anchors(ds) <==> h in Anchors(ds[..n]) + {ds[n].anchor} {
      if h in Anchors(ds) {
        var i :| 0 <= i < |ds| && ds[i].anchor == h;
        if i < n {
          assert ds[..n][i].anchor == h;
        }
      }
      if h in Anchors(ds[..n]) {
        var i :| 0 <= i < n && ds[..n][i].anchor == h;
        assert ds[i].anchor == h;
      }
    }
  }

  /** Distribution adds the anchors it names and touches neither enrolment nor publish data. */
  lemma {:induction false} DistributedKeeps(data: Window, ds: seq<Distribution>)
    ensures Distributed(data, ds).Keys == data.Keys + Anchors(ds)
    ensures forall h :: h in Distributed(data, ds) ==>
              Distributed(data, ds)[h].publish == DataAt(data, h).publish &&
                  Distributed(data, ds)[h].enrolled == DataAt(data, h).enrolled
    ensures forall h, d :: h in data && d in data[h].distribute ==>
              h in Distributed(data, ds) && d in Distributed(data, ds)[h].distribute &&
                  Distributed(data, ds)[h].distribute[d] == data[h].distribute[d]
  {
    if ds != [] {
      DistributedKeeps(data, ds[..|ds| - 1]);
      AnchorsLast(ds);
    }
  }

  /** Distribution i is the first that brings the data of `dest` for h. */
  ghost predicate FirstBrings(ds: seq<Distribution>, i: nat, h: Hash, dest: Dest) {
    && i < |ds| && ds[i].anchor == h && dest in ds[i].items
    && forall j :: 0 <= j < i ==> !(ds[j].anchor == h && dest in ds[j].items)
  }

  lemma {:induction false} FirstExists(ds: seq<Distribution>, j: nat, h: Hash, dest: Dest) returns (i: nat)
    requires j < |ds| && ds[j].anchor == h && dest in ds[j].items
    ensures i <= j && FirstBrings(ds, i, h, dest)
  {
    if k: nat :| k < j && ds[k].anchor == h && dest in ds[k].items {
      i := FirstExists(ds, k, h, dest);
    } else {
      i := j;
    }
  }

  /** What an anchor holds of one delegate's data, before and after. */
  ghost predicate TakenFirst(before: map<Dest, Data>, ds: seq<Distribution>, after: map<Dest, Data>, h: Hash,
      dest: Dest) {
    && (dest in before ==> dest in after && after[dest] == before[dest])
    && (dest !in before ==> forall i: nat :: FirstBrings(ds, i, h, dest) ==>
          dest in after && after[dest] == ds[i].items[dest])
    && (dest in after && dest !in before ==> exists i: nat :: FirstBrings(ds, i, h, dest))
  }

  lemma TakenFirstStep(before: map<Dest, Data>, ds: seq<Distribution>, prev: map<Dest, Data>, h: Hash, dest: Dest)
    requires ds != [] && TakenFirst(before, ds[..|ds| - 1], prev, h, dest)
    ensures var last := ds[|ds| - 1];
            TakenFirst(before, ds, if last.anchor == h then last.items + prev else prev, h, dest)
  {
    var n := |ds| - 1;
    forall i: nat | i < n ensures FirstBrings(ds, i, h, dest) <==> FirstBrings(ds[..n], i, h, dest) {
      assert forall j :: 0 <= j < n ==> ds[..n][j] == ds[j];
    }
    if dest !in before {
      if dest in prev {
        var i: nat :| FirstBrings(ds[..n], i, h, dest);
        assert FirstBrings(ds, i, h, dest);
      } else if ds[n].anchor == h && dest in ds[n].items {
        var i := FirstExists(ds, n, h, dest);
      }
    }
  }

  /** All data given is stored: what an anchor holds already is kept, otherwise the first that is given
      for it is taken; and nothing else is stored. */
  lemma {:induction false} DistributedAt(data: Window, ds: seq<Distribution>, h: Hash, dest: Dest)
    ensures TakenFirst(DataAt(data, h).distribute, ds, DataAt(Distributed(data, ds), h).distribute, h, dest)
  {
    if ds != [] {
      var n := |ds| - 1;
      DistributedAt(data, ds[..n], h, dest);
      TakenFirstStep(DataAt(data, h).distribute, ds, DataAt(Distributed(data, ds[..n]), h).distribute, h, dest);
    }
  }

  lemma AnchoredIff(ds: seq<Distribution>, list: seq<Hash>)
    ensures Anchored(ds, list) <==> Anchors(ds) - Elems(list) == {}
  {
    assert forall h :: h in Anchors(ds) && h !in Elems(list) ==> h in Anchors(ds) - Elems(list);
    if Anchors(ds) - Elems(list) == {} {
      forall i | 0 <= i < |ds| ensures ds[i].anchor in list {
        assert ds[i].anchor in Anchors(ds);
      }
    }
  }

  lemma {:induction false} PushedAgree(d: Window, d': Window, es: seq<Enrolment>, h: Hash)
    requires h in Pushed(d, es) && (h in d ==> h in d' && d[h] == d'[h])
    ensures h in Pushed(d', es) && Pushed(d', es)[h].enrolled == Pushed(d, es)[h].enrolled
  {
    if es != [] && h != es[|es| - 1].hash {
      PushedAgree(d, d', es[..|es| - 1], h);
    }
  }

  // ---------------------------------------------------------------- whole runs

  datatype Event =
    | ChainMoved(start: int, es: seq<Enrolment>, ds: seq<Distribution>, publish: map<Dest, Data>, publishAnchor: Hash)
    | DistributeArrived(anchor: Hash, dest: Dest, item: Data)
    | PublishArrived(anchor: Hash, dest: Dest, item: Data)

  ghost function ChainStep(main: int -> Option<Hash>, e: Event): int -> Option<Hash> {
    if e.ChainMoved? then Rechained(main, e.start, Hashes(e.es)) else main
  }

  /** The primary chain after some events. */
  ghost function ChainAfter(events: seq<Event>): int -> Option<Hash> {
    if events == [] then NoChain() else ChainStep(ChainAfter(events[..|events| - 1]), events[|events| - 1])
  }

  ghost function ListStep(interval: nat, w: Listing, e: Event): Listing {
    if e.ChainMoved? then Moved(interval, w, e.start, e.es) else w
  }

  ghost function Listed(interval: nat, events: seq<Event>): Listing {
    if events == [] then Listing([], -1) else ListStep(interval, Listed(interval, events[..|events| - 1]),
        events[|events| - 1])
  }

  /** The new blocks of an update are not on the part of the chain that stays. */
  ghost predicate NewBlocks(main: int -> Option<Hash>, e: Event) {
    e.ChainMoved? ==> NoDup(Hashes(e.es)) && forall h, k :: h in Hashes(e.es) && k <= e.start ==> main(k) != Some(h)
  }

  ghost predicate WellFormed(events: seq<Event>) {
    forall i :: 0 <= i < |events| ==> NewBlocks(ChainAfter(events[..i]), events[i])
  }

  /** Every distribution names a block that is listed or being added. */
  ghost predicate NoStray(w: Listing, e: Event) {
    e.ChainMoved? ==> Anchored(e.ds, Candidates(w.list, w.last, e.start, e.es))
  }

  ghost predicate Clean(interval: nat, events: seq<Event>) {
    forall i :: 0 <= i < |events| ==> NoStray(Listed(interval, events[..i]), events[i])
  }

  lemma NewBlocksAreFresh(list: seq<Hash>, last: int, main: int -> Option<Hash>, e: Event)
    requires OnChain(list, last, main) && e.ChainMoved? && NewBlocks(main, e)
    ensures Fresh(Hashes(e.es), RolledBack(list, last, e.start))
  {
    var kept := RolledBack(list, last, e.start);
    OnChainRolledBack(list, last, main, e.start);
    forall i | 0 <= i < |kept| ensures kept[i] !in Hashes(e.es) {
      assert main(e.start - i) == Some(kept[i]);
    }
  }

  lemma StepOnChain(interval: nat, w: Listing, main: int -> Option<Hash>, e: Event)
    requires OnChain(w.list, w.last, main)
    ensures OnChain(ListStep(interval, w, e).list, ListStep(interval, w, e).last, ChainStep(main, e))
  {
    if e.ChainMoved? {
      OnChainAfter(w.list, w.last, main, e.start, e.es, interval + 1);
    }
  }

  /** The listed anchors are always the newest blocks of the chain. */
  lemma {:induction false} ListedOnChain(interval: nat, events: seq<Event>)
    ensures OnChain(Listed(interval, events).list, Listed(interval, events).last, ChainAfter(events))
  {
    if events != [] {
      var n := |events| - 1;
      ListedOnChain(interval, events[..n]);
      StepOnChain(interval, Listed(interval, events[..n]), ChainAfter(events[..n]), events[n]);
    }
  }

  ghost predicate FreshFor(w: Listing, e: Event) {
    e.ChainMoved? ==> Fresh(Hashes(e.es), RolledBack(w.list, w.last, e.start))
  }

  method Handle(w: DelegateWindow, e: Event)
    requires w.Valid() && FreshFor(Listing(w.list, w.last), e)
    modifies w
    ensures w.Valid() && Listing(w.list, w.last) == ListStep(w.interval, Listing(old(w.list), old(w.last)), e)
    ensures old(Strays(w.data, w.list)) == {} && NoStray(Listing(old(w.list), old(w.last)), e) ==>
            Strays(w.data, w.list) == {}
  {
    match e
    case ChainMoved(start, es, ds, publish, publishAnchor) =>
      KeysAreAnchorsIff(w.list, w.last, start, es, ds);
      w.Update(start, es, ds, publish, publishAnchor);
    case DistributeArrived(anchor, dest, item) =>
      var _ := w.InsertDistributeData(anchor, dest, item);
    case PublishArrived(anchor, dest, item) =>
      var _ := w.InsertPublishData(anchor, dest, item);
  }

  /** Whatever moves the chain and whatever data arrives: the window lists the newest blocks of the
      chain, at most one more than the interval, all of them have entries, publish data sits at the
      oldest only; and if no distribution ever named another block, there are no other entries. */
  method Run(interval: nat, events: seq<Event>) returns (w: DelegateWindow)
    requires WellFormed(events)
    ensures fresh(w) && Listing(w.list, w.last) == Listed(interval, events) && |w.list| <= interval + 1
    ensures OnChain(w.list, w.last, ChainAfter(events))
    ensures Elems(w.list) <= w.data.Keys && NoDup(w.list) && PublishAtOldest(w.data, w.list)
    ensures Clean(interval, events) ==> w.data.Keys == Elems(w.list)
  {
    w := new DelegateWindow(interval);
    for i := 0 to |events|
      invariant fresh(w) && w.interval == interval && w.Valid()
      invariant Listing(w.list, w.last) == Listed(interval, events[..i])
      invariant Clean(interval, events) ==> Strays(w.data, w.list) == {}
    {
      RunStep(interval, events, i);
      Handle(w, events[i]);
    }
    assert events[..|events|] == events;
    ListedOnChain(interval, events);
    NoStraysLeft(w.data, w.list);
  }

  lemma RunStep(interval: nat, events: seq<Event>, i: nat)
    requires i < |events| && WellFormed(events)
    ensures Listed(interval, events[..i+1]) == ListStep(interval, Listed(interval, events[..i]), events[i])
    ensures FreshFor(Listed(interval, events[..i]), events[i])
    ensures Clean(interval, events) ==> NoStray(Listed(interval, events[..i]), events[i])
  {
    assert events[..i+1][..i] == events[..i];
    var w := Listed(interval, events[..i]);
    if events[i].ChainMoved? {
      ListedOnChain(interval, events[..i]);
      NewBlocksAreFresh(w.list, w.last, ChainAfter(events[..i]), events[i]);
    }
  }

  lemma NoStraysLeft(data: Window, list: seq<Hash>)
    requires Elems(list) <= data.Keys
    ensures Strays(data, list) == {} ==> data.Keys == Elems(list)
  {
    forall h | h in data.Keys && Strays(data, list) == {} ensures h in Elems(list) {
      assert h in Strays(data, list) || h in Elems(list);
    }
  }
}
