/** CBlockMaker::ProcessSubFork, CreateExtended and ReplenishSubForkVacant (src/blockchain/blockmaker.cpp):
    the tasks by which a delegate that has just made a primary block serves the sub-forks. */
module BlockMaker {
  import opened Common
  import opened BlockTree
  import SubFork

  const FORK_LAST_BLOCK_COUNT := 30
  const FORK_WAIT_BLOCK_COUNT := 60
  const FORK_WAIT_BLOCK_SECT := 100000

  /** One call: the primary block referred to, and the block before it. */
  datatype Call = Call(ref: Hash, refTime: nat, prevHeight: nat, prevStake: bool, spacing: SubFork.Spacing)

  /** A subsidiary block waits for its parent; an extended block knows it. */
  datatype Task = SubsidiaryTask(number: nat) | ExtendedTask(prev: Hash, number: nat, slot: nat)

  /** An entry of mapBlocks; an extended block's time is its key. */
  datatype Entry = Entry(time: nat, fork: Hash, task: Task)

  /** A dispatched block. */
  datatype Made = Made(hash: Hash, prev: Hash, number: nat, time: nat, slot: nat)

  /** What a fork has got so far: its blocks, and how many extended tasks. */
  datatype Progress = Progress(log: seq<Made>, slots: nat)

  datatype Maker = Maker(queue: seq<Entry>, stats: map<Hash, (nat, int)>, progress: map<Hash, Progress>)

  datatype Status = Status(hash: Hash, height: nat, time: nat, number: nat)

  /** What the rest of the node answers while one task is processed. The clock is read when a subsidiary
      block is placed, when it is put off, and when the next task is made. */
  datatype Answers = Answers(
    now: nat,
    requeueNow: nat,
    nextNow: nat,
    status: Option<Status>,
    longChain: bool,
    forkHeight: nat,
    lastOfHeight: Option<Hash>,
    replenished: Option<(Hash, nat)>,
    created: bool,
    arranged: bool,
    empty: bool,
    signed: bool,
    dispatched: Option<Hash>)

  // ---------------------------------------------------------------- the queue

  /** multimap::insert: after all entries with the same key. */
  function Insert(q: seq<Entry>, e: Entry): seq<Entry> {
    if q == [] || e.time < q[0].time then [e] + q else [q[0]] + Insert(q[1..], e)
  }

  ghost predicate InTimeOrder(q: seq<Entry>) {
    forall i, j :: 0 <= i < j < |q| ==> q[i].time <= q[j].time
  }

  ghost predicate OnePerFork(q: seq<Entry>) {
    forall i, j :: 0 <= i < j < |q| ==> q[i].fork != q[j].fork
  }

  lemma {:induction false} InsertElements(q: seq<Entry>, e: Entry)
    ensures forall x :: x in Insert(q, e) <==> x == e || x in q
  {
    if q != [] && e.time >= q[0].time {
      InsertElements(q[1..], e);
      assert q == [q[0]] + q[1..];
    }
  }

  lemma {:induction false} InsertOrdered(q: seq<Entry>, e: Entry)
    requires InTimeOrder(q)
    ensures InTimeOrder(Insert(q, e))
  {
    if q != [] && e.time >= q[0].time {
      InsertOrdered(q[1..], e);
      InsertElements(q[1..], e);
      var r := Insert(q[1..], e);
      forall j | 0 <= j < |r| ensures q[0].time <= r[j].time {
        assert r[j] in r;
      }
    }
  }

  lemma {:induction false} InsertOnePerFork(q: seq<Entry>, e: Entry)
    requires OnePerFork(q) && forall x :: x in q ==> x.fork != e.fork
    ensures OnePerFork(Insert(q, e))
  {
    if q != [] && e.time >= q[0].time {
      InsertOnePerFork(q[1..], e);
      InsertElements(q[1..], e);
      var r := Insert(q[1..], e);
      forall j | 0 <= j < |r| ensures q[0].fork != r[j].fork {
        assert r[j] in r;
      }
    }
  }

  /** The entry goes after all that are due no later, and before all that are due later. */
  lemma {:induction false} InsertAt(q: seq<Entry>, e: Entry) returns (k: nat)
    requires InTimeOrder(q)
    ensures k <= |q| && Insert(q, e) == q[..k] + [e] + q[k..]
    ensures (forall i :: 0 <= i < k ==> q[i].time <= e.time) && (forall i :: k <= i < |q| ==> e.time < q[i].time)
  {
    if q == [] || e.time < q[0].time {
      k := 0;
    } else {
      k := InsertAt(q[1..], e);
      k := k + 1;
      assert q[..k] == [q[0]] + q[1..][..k-1] && q[k..] == q[1..][k-1..];
      assert forall i :: k <= i < |q| ==> q[i] == q[1..][i-1];
    }
  }

  lemma {:induction false} InsertSize(q: seq<Entry>, e: Entry)
    ensures |Insert(q, e)| == |q| + 1
  {
    if q != [] && e.time >= q[0].time {
      InsertSize(q[1..], e);
    }
  }

  // ---------------------------------------------------------------- subsidiary tasks

  datatype Decision = Use(prev: Hash, number: nat) | Retry | Drop

  /** mapForkLastStat: the fork's height and the primary height at which it was first seen stuck there. */
  function NoteStuck(c: Call, stats: map<Hash, (nat, int)>, fork: Hash, height: nat): (nat, int) {
    if fork in stats && stats[fork].0 == height then stats[fork] else (height, c.prevHeight + 1)
  }

  predicate FarBehind(c: Call, a: Answers, height: nat) {
    height != a.forkHeight && height < c.prevHeight + 1 - FORK_LAST_BLOCK_COUNT
  }

  predicate WaitedEnough(c: Call, since: int, height: nat)
    requires height <= c.prevHeight
  {
    c.prevHeight + 1 - since >= FORK_WAIT_BLOCK_COUNT * ((c.prevHeight + 1 - height) / FORK_WAIT_BLOCK_SECT + 1)
  }

  function FillUp(a: Answers): Decision {
    match a.replenished
    case Some((hash, number)) => Use(hash, number + 1)
    case None => Drop
  }

  /** On which block a subsidiary block is put. */
  function Choose(c: Call, stats: map<Hash, (nat, int)>, fork: Hash, number: nat, a: Answers): Decision {
    if a.status.None? || !a.longChain then Drop
    else
      var st := a.status.value;
      if st.height > c.prevHeight then
        if a.lastOfHeight.Some? then Use(a.lastOfHeight.value, number) else Drop
      else if st.height == c.prevHeight then
        if !c.prevStake || st.time + c.spacing.extended == c.refTime ||
            a.now >= c.refTime then Use(st.hash, number) else Retry
      else if FarBehind(c, a, st.height) then
        if WaitedEnough(c, NoteStuck(c, stats, fork, st.height).1, st.height) then FillUp(a) else Drop
      else if !c.prevStake || a.now >= c.refTime then FillUp(a)
      else Retry
  }

  function NewStats(c: Call, stats: map<Hash, (nat, int)>, fork: Hash, a: Answers): map<Hash, (nat, int)> {
    if a.status.Some? && a.longChain && a.status.value.height < c.prevHeight && FarBehind(c, a, a.status.value.height)
    then stats[fork := NoteStuck(c, stats, fork, a.status.value.height)]
    else stats
  }

  // ---------------------------------------------------------------- one task

  function ProgressOf(m: Maker, fork: Hash): Progress {
    if fork in m.progress then m.progress[fork] else Progress([], 0)
  }

  /** A task queued and its fork's progress noted. */
  function Queued(m: Maker, e: Entry, p: Progress): Maker {
    m.(queue := Insert(m.queue, e), progress := m.progress[e.fork := p])
  }

  function ExtendedEntry(c: Call, fork: Hash, prev: Hash, prevTime: nat, prevNumber: nat, prevSlot: nat): Entry {
    Entry(prevTime + c.spacing.extended, fork, ExtendedTask(prev, prevNumber + 1, prevSlot + 1))
  }

  function OneMoreSlot(p: Progress): Progress {
    p.(slots := p.slots + 1)
  }

  /** The next extended task of a fork, as long as its slot ends before the next primary block. */
  function Follow(c: Call, m: Maker, fork: Hash, prev: Hash, prevTime: nat, prevNumber: nat, prevSlot: nat,
                  now: nat): Maker {
    if prevTime + c.spacing.extended < c.refTime + c.spacing.target && now < c.refTime + c.spacing.target
    then Queued(m, ExtendedEntry(c, fork, prev, prevTime, prevNumber, prevSlot), OneMoreSlot(ProgressOf(m, fork)))
    else m
  }

  function Record(m: Maker, fork: Hash, made: Made): Maker {
    var p := ProgressOf(m, fork);
    m.(progress := m.progress[fork := p.(log := p.log + [made])])
  }

  function DoSubsidiary(c: Call, m: Maker, fork: Hash, number: nat, a: Answers): Maker {
    Place(c, m.(stats := NewStats(c, m.stats, fork, a)), fork, number, Choose(c, m.stats, fork, number, a), a)
  }

  function Place(c: Call, m: Maker, fork: Hash, number: nat, d: Decision, a: Answers): Maker {
    match d
    case Drop => m
    case Retry => m.(queue := Insert(m.queue, Entry(a.requeueNow + 1, fork, SubsidiaryTask(number))))
    case Use(prev, n) =>
      if prev != 0 && a.created && a.dispatched.Some? then
        var made := Made(a.dispatched.value, prev, n, c.refTime, 0);
        Follow(c, Record(m, fork, made), fork, made.hash, c.refTime, n, 0, a.nextNow)
      else m
  }

  /** A failed slot is skipped: the next task keeps its parent and number. */
  function DoExtended(c: Call, m: Maker, e: Entry, a: Answers): Maker
    requires e.task.ExtendedTask? && e.task.number > 0
  {
    var t := e.task;
    if a.arranged && !a.empty && a.signed && a.dispatched.Some? then
      var made := Made(a.dispatched.value, t.prev, t.number, e.time, t.slot);
      Follow(c, Record(m, e.fork, made), e.fork, made.hash, e.time, t.number, t.slot, a.nextNow)
    else Follow(c, m, e.fork, t.prev, e.time, t.number - 1, t.slot, a.nextNow)
  }

  predicate Runnable(m: Maker) {
    m.queue != [] && (m.queue[0].task.ExtendedTask? ==> m.queue[0].task.number > 0)
  }

  function Next(c: Call, m: Maker, a: Answers): Maker
    requires Runnable(m)
  {
    var e := m.queue[0];
    var m1 := m.(queue := m.queue[1..]);
    match e.task
    case SubsidiaryTask(number) => DoSubsidiary(c, m1, e.fork, number, a)
    case ExtendedTask(_, _, _) => DoExtended(c, m1, e, a)
  }

  // ---------------------------------------------------------------- what every task keeps

  /** A block at the time its slot prescribes. */
  predicate OnSlot(c: Call, time: nat, slot: nat) {
    time == c.refTime + c.spacing.extended * slot && c.spacing.extended * slot < c.spacing.target
  }

  ghost predicate OnSlots(c: Call, log: seq<Made>) {
    forall i :: 0 <= i < |log| ==> OnSlot(c, log[i].time, log[i].slot) && (i == 0 <==> log[i].slot == 0)
  }

  /** b continues a. */
  ghost predicate Continues(a: Made, b: Made) {
    b.prev == a.hash && b.number == a.number + 1 && b.slot > a.slot
  }

  /** The blocks of a fork form a chain with consecutive numbers and increasing slots, led by the
      subsidiary block. */
  ghost predicate LogOk(c: Call, log: seq<Made>) {
    OnSlots(c, log) && forall i :: 0 < i < |log| ==> Continues(log[i-1], log[i])
  }

  /** A task continues its fork's last dispatched block. */
  ghost predicate TaskOk(c: Call, p: Progress, e: Entry) {
    match e.task
    case SubsidiaryTask(_) => p == Progress([], 0)
    case ExtendedTask(prev, number, slot) =>
      && p.log != [] && slot == p.slots && OnSlot(c, e.time, slot)
      && prev == p.log[|p.log|-1].hash && number == p.log[|p.log|-1].number + 1 && slot > p.log[|p.log|-1].slot
  }

  /** As many extended tasks as slots were tried, and never one too many. */
  ghost predicate ProgressOk(c: Call, p: Progress) {
    && LogOk(c, p.log) && c.spacing.extended * p.slots < c.spacing.target
    && (p.log != [] ==> p.log[|p.log|-1].slot <= p.slots) && (p.log == [] ==> p.slots == 0)
  }

  ghost predicate ForksOk(c: Call, m: Maker) {
    forall f :: f in m.progress ==> ProgressOk(c, m.progress[f])
  }

  ghost predicate TasksOk(c: Call, m: Maker) {
    forall e :: e in m.queue ==> TaskOk(c, ProgressOf(m, e.fork), e)
  }

  ghost predicate Good(c: Call, m: Maker) {
    InTimeOrder(m.queue) && OnePerFork(m.queue) && ForksOk(c, m) && TasksOk(c, m)
  }

  lemma SlotStep(c: Call, time: nat, slot: nat)
    requires time == c.refTime + c.spacing.extended * slot
    ensures time + c.spacing.extended < c.refTime + c.spacing.target ==> OnSlot(c, time + c.spacing.extended, slot + 1)
  {
    assert c.spacing.extended * (slot + 1) == c.spacing.extended * slot + c.spacing.extended;
  }

  ghost predicate Extends(log: seq<Made>, made: Made) {
    (log == [] <==> made.slot == 0) && (log != [] ==> Continues(log[|log|-1], made))
  }

  lemma LogAppend(c: Call, log: seq<Made>, made: Made)
    requires LogOk(c, log) && OnSlot(c, made.time, made.slot) && Extends(log, made)
    ensures LogOk(c, log + [made])
  {
    var log' := log + [made];
    assert OnSlots(c, log');
    forall i | 0 < i < |log'| ensures Continues(log'[i-1], log'[i]) {
      if i < |log| {
        assert log'[i-1] == log[i-1] && log'[i] == log[i];
      }
    }
  }

  /** Without the fork's own task the others are not affected by what happens to the fork. */
  ghost predicate Without(c: Call, m: Maker, fork: Hash) {
    Good(c, m) && forall x :: x in m.queue ==> x.fork != fork
  }

  lemma RecordKeeps(c: Call, m: Maker, fork: Hash, made: Made)
    requires Without(c, m, fork) && ProgressOk(c, ProgressOf(m, fork).(log := ProgressOf(m, fork).log + [made]))
    ensures Without(c, Record(m, fork, made), fork)
  {
    var m' := Record(m, fork, made);
    forall e | e in m'.queue ensures TaskOk(c, ProgressOf(m', e.fork), e) {
      assert ProgressOf(m', e.fork) == ProgressOf(m, e.fork);
    }
  }

  lemma QueueKeeps(q: seq<Entry>, e: Entry)
    requires InTimeOrder(q) && OnePerFork(q) && forall x :: x in q ==> x.fork != e.fork
    ensures InTimeOrder(Insert(q, e)) && OnePerFork(Insert(q, e))
  {
    InsertOrdered(q, e);
    InsertOnePerFork(q, e);
  }

  /** A new task for a fork that has none, and the fork's new progress. */
  lemma TaskAdded(c: Call, m: Maker, e: Entry, p: Progress)
    requires Without(c, m, e.fork) && ProgressOk(c, p) && TaskOk(c, p, e)
    ensures Good(c, Queued(m, e, p))
  {
    QueueKeeps(m.queue, e);
    InsertElements(m.queue, e);
    var m' := Queued(m, e, p);
    forall x | x in m'.queue ensures TaskOk(c, ProgressOf(m', x.fork), x) {
      assert x.fork != e.fork ==> ProgressOf(m', x.fork) == ProgressOf(m, x.fork);
    }
  }

  lemma FollowKeeps(c: Call, m: Maker, fork: Hash, prev: Hash, prevTime: nat, prevNumber: nat, prevSlot: nat, now: nat)
    requires Without(c, m, fork) && ProgressOf(m, fork).log != [] && prevSlot == ProgressOf(m, fork).slots
    requires prevTime == c.refTime + c.spacing.extended * prevSlot
    requires var last := ProgressOf(m, fork).log[|ProgressOf(m, fork).log|-1];
      prev == last.hash && prevNumber == last.number
    ensures Good(c, Follow(c, m, fork, prev, prevTime, prevNumber, prevSlot, now))
  {
    if prevTime + c.spacing.extended < c.refTime + c.spacing.target && now < c.refTime + c.spacing.target {
      var p := ProgressOf(m, fork);
      assert ProgressOk(c, p);
      var e := ExtendedEntry(c, fork, prev, prevTime, prevNumber, prevSlot);
      NextSlot(c, p, prevTime, e);
      TaskAdded(c, m, e, OneMoreSlot(p));
    }
  }

  lemma NextSlot(c: Call, p: Progress, prevTime: nat, e: Entry)
    requires ProgressOk(c, p) && p.log != [] && prevTime == c.refTime + c.spacing.extended * p.slots
    requires prevTime + c.spacing.extended < c.refTime + c.spacing.target && e.time == prevTime + c.spacing.extended
    requires var last := p.log[|p.log|-1]; e.task == ExtendedTask(last.hash, last.number + 1, p.slots + 1)
    ensures ProgressOk(c, OneMoreSlot(p)) && TaskOk(c, OneMoreSlot(p), e)
  {
    SlotStep(c, prevTime, p.slots);
  }

  /** Dispatching a block that extends the log, and queuing the next task. */
  lemma MadeKeeps(c: Call, m: Maker, fork: Hash, made: Made, now: nat)
    requires Without(c, m, fork) && ProgressOk(c, ProgressOf(m, fork)) && made.slot == ProgressOf(m, fork).slots
    requires OnSlot(c, made.time, made.slot) && Extends(ProgressOf(m, fork).log, made)
    ensures Good(c, Follow(c, Record(m, fork, made), fork, made.hash, made.time, made.number, made.slot, now))
  {
    LogAppend(c, ProgressOf(m, fork).log, made);
    RecordKeeps(c, m, fork, made);
    FollowKeeps(c, Record(m, fork, made), fork, made.hash, made.time, made.number, made.slot, now);
  }

  lemma RetryKeeps(c: Call, m: Maker, fork: Hash, e: Entry)
    requires Without(c, m, fork) && e.fork == fork && TaskOk(c, ProgressOf(m, fork), e)
    ensures Good(c, m.(queue := Insert(m.queue, e)))
  {
    InsertElements(m.queue, e);
    QueueKeeps(m.queue, e);
    var m' := m.(queue := Insert(m.queue, e));
    forall x | x in m'.queue ensures TaskOk(c, ProgressOf(m', x.fork), x) {
      assert ProgressOf(m', x.fork) == ProgressOf(m, x.fork);
    }
  }

  lemma PopKeeps(c: Call, m: Maker)
    requires Good(c, m) && m.queue != []
    ensures Without(c, m.(queue := m.queue[1..]), m.queue[0].fork)
  {
    var m1 := m.(queue := m.queue[1..]);
    forall x | x in m1.queue ensures x in m.queue && x.fork != m.queue[0].fork &&
        ProgressOf(m1, x.fork) == ProgressOf(m, x.fork) {
      var i :| 0 <= i < |m1.queue| && m1.queue[i] == x;
      assert m.queue[i+1] == x;
    }
  }

  lemma FirstMadeKeeps(c: Call, m: Maker, fork: Hash, made: Made, now: nat)
    requires Without(c, m, fork) && ProgressOf(m, fork) == Progress([], 0) && made.slot == 0 && made.time == c.refTime
    ensures Good(c, Follow(c, Record(m, fork, made), fork, made.hash, c.refTime, made.number, 0, now))
  {
    assert c.spacing.extended * 0 == 0;
    MadeKeeps(c, m, fork, made, now);
  }

  lemma PlaceKeeps(c: Call, m: Maker, fork: Hash, number: nat, d: Decision, a: Answers)
    requires Without(c, m, fork) && ProgressOf(m, fork) == Progress([], 0)
    ensures Good(c, Place(c, m, fork, number, d, a))
  {
    if d.Retry? {
      RetryKeeps(c, m, fork, Entry(a.requeueNow + 1, fork, SubsidiaryTask(number)));
    } else if d.Use? && d.prev != 0 && a.created && a.dispatched.Some? {
      FirstMadeKeeps(c, m, fork, Made(a.dispatched.value, d.prev, d.number, c.refTime, 0), a.nextNow);
    }
  }

  lemma DoSubsidiaryKeeps(c: Call, m: Maker, fork: Hash, number: nat, a: Answers)
    requires Without(c, m, fork) && ProgressOf(m, fork) == Progress([], 0)
    ensures Good(c, DoSubsidiary(c, m, fork, number, a))
  {
    var m1 := m.(stats := NewStats(c, m.stats, fork, a));
    StatsIrrelevant(c, m, m1, fork);
    PlaceKeeps(c, m1, fork, number, Choose(c, m.stats, fork, number, a), a);
  }

  lemma StatsIrrelevant(c: Call, m: Maker, m1: Maker, fork: Hash)
    requires Without(c, m, fork) && m1.queue == m.queue && m1.progress == m.progress
    ensures Without(c, m1, fork)
  {
    forall e | e in m1.queue ensures TaskOk(c, ProgressOf(m1, e.fork), e) {
      assert ProgressOf(m1, e.fork) == ProgressOf(m, e.fork);
    }
  }

  /** An extended task of a fork that has just been taken from the queue. */
  ghost predicate Taken(c: Call, m: Maker, e: Entry) {
    Without(c, m, e.fork) && e.task.ExtendedTask? && TaskOk(c, ProgressOf(m, e.fork), e)
  }

  lemma ExtendedMadeKeeps(c: Call, m: Maker, e: Entry, hash: Hash, now: nat)
    requires Taken(c, m, e)
    ensures Good(c, Follow(c, Record(m, e.fork, Made(hash, e.task.prev, e.task.number, e.time, e.task.slot)),
                           e.fork, hash, e.time, e.task.number, e.task.slot, now))
  {
    MadeKeeps(c, m, e.fork, Made(hash, e.task.prev, e.task.number, e.time, e.task.slot), now);
  }

  lemma ExtendedSkipKeeps(c: Call, m: Maker, e: Entry, now: nat)
    requires Taken(c, m, e) && e.task.number > 0
    ensures Good(c, Follow(c, m, e.fork, e.task.prev, e.time, e.task.number - 1, e.task.slot, now))
  {
    FollowKeeps(c, m, e.fork, e.task.prev, e.time, e.task.number - 1, e.task.slot, now);
  }

  lemma DoExtendedKeeps(c: Call, m: Maker, e: Entry, a: Answers)
    requires Taken(c, m, e) && e.task.number > 0
    ensures Good(c, DoExtended(c, m, e, a))
  {
    if a.arranged && !a.empty && a.signed && a.dispatched.Some? {
      ExtendedMadeKeeps(c, m, e, a.dispatched.value, a.nextNow);
    } else {
      ExtendedSkipKeeps(c, m, e, a.nextNow);
    }
  }

  lemma GoodIsRunnable(c: Call, m: Maker)
    requires Good(c, m) && m.queue != []
    ensures Runnable(m) && TaskOk(c, ProgressOf(m, m.queue[0].fork), m.queue[0])
  {
    assert m.queue[0] in m.queue;
  }

  /** Whatever the node answers, every task keeps the invariant. */
  lemma NextKeeps(c: Call, m: Maker, a: Answers)
    requires Good(c, m) && m.queue != []
    ensures Runnable(m) && Good(c, Next(c, m, a))
  {
    GoodIsRunnable(c, m);
    PopKeeps(c, m);
    var m1, e := m.(queue := m.queue[1..]), m.queue[0];
    match e.task
    case SubsidiaryTask(number) => DoSubsidiaryKeeps(c, m1, e.fork, number, a);
    case ExtendedTask(_, _, _) => DoExtendedKeeps(c, m1, e, a);
  }

  // ---------------------------------------------------------------- what one task does, exactly

  /** The primary height since which the fork is known to be stuck at `height`. */
  ghost function StuckSince(c: Call, stats: map<Hash, (nat, int)>, fork: Hash, height: nat): int {
    if fork in stats && stats[fork].0 == height then stats[fork].1 else c.prevHeight + 1
  }

  /** The fork has more than 29 heights to catch up with, and is past its first block. */
  ghost predicate Stuck(c: Call, a: Answers)
    requires a.status.Some?
  {
    a.status.value.height != a.forkHeight && a.status.value.height + 29 < c.prevHeight
  }

  /** A stuck fork is noted with the height it is stuck at, and since when. */
  ghost function StuckNoted(c: Call, stats: map<Hash, (nat, int)>, fork: Hash, a: Answers): map<Hash, (nat, int)> {
    if a.status.Some? && a.longChain && a.status.value.height < c.prevHeight && Stuck(c, a)
    then stats[fork := (a.status.value.height, StuckSince(c, stats, fork, a.status.value.height))]
    else stats
  }

  /** The subsidiary block goes on `prev` with the number `number'`. A fork ahead gets it on its last block
      of the previous height; a level fork on its last block, once nothing later is to be expected there; a
      fork behind on the last block filled in, once the time has come or, when it is stuck, after 60 more
      primary blocks, and 60 on top for every 100000 it is behind. */
  ghost predicate Placed(c: Call, stats: map<Hash, (nat, int)>, fork: Hash, number: nat, a: Answers, prev: Hash,
      number': nat) {
    && a.status.Some? && a.longChain
    && var st := a.status.value;
    || (st.height > c.prevHeight && a.lastOfHeight == Some(prev) && number' == number)
    || (&& st.height == c.prevHeight && prev == st.hash && number' == number
        && (!c.prevStake || st.time + c.spacing.extended == c.refTime || a.now >= c.refTime))
    || (&& st.height < c.prevHeight && number' > 0 && a.replenished == Some((prev, number' - 1))
        && (if Stuck(c, a) then
              c.prevHeight + 1 - StuckSince(c, stats, fork, st.height)
              >= 60 * ((c.prevHeight + 1 - st.height) / 100000 + 1)
            else !c.prevStake || a.now >= c.refTime))
  }

  /** The subsidiary block is put off: its time has not come, and the previous round may still bring blocks. */
  ghost predicate PutOff(c: Call, a: Answers) {
    && a.status.Some? && a.longChain && c.prevStake && a.now < c.refTime
    && var st := a.status.value;
    || (st.height == c.prevHeight && st.time + c.spacing.extended != c.refTime)
    || (st.height < c.prevHeight && !Stuck(c, a))
  }

  /** Exactly when a subsidiary block is placed, and where; put off; or given up. */
  lemma ChooseIff(c: Call, stats: map<Hash, (nat, int)>, fork: Hash, number: nat, a: Answers, prev: Hash,
      number': nat)
    ensures Choose(c, stats, fork, number, a) == Use(prev, number') <==>
              Placed(c, stats, fork, number, a, prev, number')
    ensures Choose(c, stats, fork, number, a) == Retry <==> PutOff(c, a)
  {
  }

  ghost function TasksOf(m: Maker, fork: Hash): set<Entry> {
    set x | x in m.queue && x.fork == fork
  }

  ghost predicate OthersKept(m: Maker, m': Maker, fork: Hash) {
    && (forall x: Entry :: x.fork != fork ==> (x in m'.queue <==> x in m.queue))
    && (forall f :: f != fork ==> ProgressOf(m', f) == ProgressOf(m, f))
  }

  /** The fork's next extended task, unless its slot would reach into the next round. */
  ghost function NextTasks(c: Call, fork: Hash, prev: Hash, time: nat, number: nat, slot: nat, now: nat): set<Entry> {
    if time < c.refTime + c.spacing.target && now < c.refTime + c.spacing.target
    then {Entry(time, fork, ExtendedTask(prev, number, slot))} else {}
  }

  ghost predicate MakesFirst(c: Call, stats: map<Hash, (nat, int)>, fork: Hash, number: nat, a: Answers, prev: Hash,
      number': nat) {
    Placed(c, stats, fork, number, a, prev, number') && prev != 0 && a.created && a.dispatched.Some?
  }

  /** One subsidiary task: the fork's log gains the block and its first extended task is queued, or the
      task itself stays queued, or neither. */
  ghost predicate SubsidiaryEffect(c: Call, m: Maker, e: Entry, a: Answers, m': Maker)
    requires e.task.SubsidiaryTask?
  {
    var fork, number := e.fork, e.task.number;
    var log, log', tasks' := ProgressOf(m, fork).log, ProgressOf(m', fork).log, TasksOf(m', fork);
    && OthersKept(m, m', fork) && m'.stats == StuckNoted(c, m.stats, fork, a)
    && (forall prev, n: nat :: MakesFirst(c, m.stats, fork, number, a, prev, n) ==>
          && log' == log + [Made(a.dispatched.value, prev, n, c.refTime, 0)]
          && tasks' == NextTasks(c, fork, a.dispatched.value, c.refTime + c.spacing.extended, n + 1, 1, a.nextNow))
    && (PutOff(c, a) ==> log' == log && tasks' == {Entry(a.requeueNow + 1, fork, SubsidiaryTask(number))})
    && (!PutOff(c, a) && !(exists prev, n: nat :: MakesFirst(c, m.stats, fork, number, a, prev, n)) ==>
          log' == log && tasks' == {})
  }

  /** One extended task: the block joins the log exactly when it was filled, signed and dispatched; either
      way the next slot is queued, on the new block or on the same parent with the same number. */
  ghost predicate ExtendedEffect(c: Call, m: Maker, e: Entry, a: Answers, m': Maker)
    requires e.task.ExtendedTask?
  {
    var fork, time, t := e.fork, e.time, e.task;
    var log, log', tasks' := ProgressOf(m, fork).log, ProgressOf(m', fork).log, TasksOf(m', fork);
    && OthersKept(m, m', fork) && m'.stats == m.stats
    && if a.arranged && !a.empty && a.signed && a.dispatched.Some? then
         && log' == log + [Made(a.dispatched.value, t.prev, t.number, time, t.slot)]
         && tasks' == NextTasks(c, fork, a.dispatched.value, time + c.spacing.extended, t.number + 1, t.slot + 1,
              a.nextNow)
       else
         && log' == log
         && tasks' == NextTasks(c, fork, t.prev, time + c.spacing.extended, t.number, t.slot + 1, a.nextNow)
  }

  lemma FollowEffect(c: Call, m: Maker, fork: Hash, prev: Hash, prevTime: nat, prevNumber: nat, prevSlot: nat, now: nat)
    requires forall x :: x in m.queue ==> x.fork != fork
    ensures var m' := Follow(c, m, fork, prev, prevTime, prevNumber, prevSlot, now);
            && OthersKept(m, m', fork) && ProgressOf(m', fork).log == ProgressOf(m, fork).log
            && TasksOf(m', fork)
               == NextTasks(c, fork, prev, prevTime + c.spacing.extended, prevNumber + 1, prevSlot + 1, now)
  {
    InsertElements(m.queue, Entry(prevTime + c.spacing.extended, fork,
        ExtendedTask(prev, prevNumber + 1, prevSlot + 1)));
  }

  lemma PopEffect(c: Call, m: Maker)
    requires Good(c, m) && m.queue != []
    ensures OthersKept(m, m.(queue := m.queue[1..]), m.queue[0].fork)
    ensures forall x :: x in m.queue[1..] ==> x.fork != m.queue[0].fork
  {
    PopKeeps(c, m);
    assert m.queue == [m.queue[0]] + m.queue[1..];
  }

  lemma PlaceEffect(c: Call, m: Maker, fork: Hash, number: nat, d: Decision, a: Answers)
    requires forall x :: x in m.queue ==> x.fork != fork
    ensures var m' := Place(c, m, fork, number, d, a);
            var log, log', tasks' := ProgressOf(m, fork).log, ProgressOf(m', fork).log, TasksOf(m', fork);
            && OthersKept(m, m', fork)
            && if d.Use? && d.prev != 0 && a.created && a.dispatched.Some? then
                 && log' == log + [Made(a.dispatched.value, d.prev, d.number, c.refTime, 0)]
                 && tasks' == NextTasks(c, fork, a.dispatched.value, c.refTime + c.spacing.extended, d.number + 1, 1,
                      a.nextNow)
               else
                 && log' == log
                 && tasks' == if d.Retry? then {Entry(a.requeueNow + 1, fork, SubsidiaryTask(number))} else {}
  {
    InsertElements(m.queue, Entry(a.requeueNow + 1, fork, SubsidiaryTask(number)));
    if d.Use? && d.prev != 0 && a.created && a.dispatched.Some? {
      var made := Made(a.dispatched.value, d.prev, d.number, c.refTime, 0);
      FollowEffect(c, Record(m, fork, made), fork, made.hash, c.refTime, d.number, 0, a.nextNow);
    }
  }

  lemma SubsidiaryOutcome(c: Call, m: Maker, e: Entry, a: Answers)
    requires (forall x :: x in m.queue ==> x.fork != e.fork) && e.task.SubsidiaryTask?
    ensures SubsidiaryEffect(c, m, e, a, DoSubsidiary(c, m, e.fork, e.task.number, a))
  {
    var fork, number := e.fork, e.task.number;
    var d := Choose(c, m.stats, fork, number, a);
    PlaceEffect(c, m.(stats := NewStats(c, m.stats, fork, a)), fork, number, d, a);
    forall prev, n: nat ensures d == Use(prev, n) <==> Placed(c, m.stats, fork, number, a, prev, n) {
      ChooseIff(c, m.stats, fork, number, a, prev, n);
    }
    ChooseIff(c, m.stats, fork, number, a, 0, 0);
    if d.Use? && d.prev != 0 && a.created && a.dispatched.Some? {
      assert MakesFirst(c, m.stats, fork, number, a, d.prev, d.number);
    }
  }

  lemma ExtendedMade(c: Call, m: Maker, e: Entry, made: Made, now: nat)
    requires forall x :: x in m.queue ==> x.fork != e.fork
    ensures var m' := Follow(c, Record(m, e.fork, made), e.fork, made.hash, made.time, made.number, made.slot, now);
            && OthersKept(m, m', e.fork) && ProgressOf(m', e.fork).log == ProgressOf(m, e.fork).log + [made]
            && TasksOf(m', e.fork) == NextTasks(c, e.fork, made.hash, made.time + c.spacing.extended,
                 made.number + 1, made.slot + 1, now)
  {
    FollowEffect(c, Record(m, e.fork, made), e.fork, made.hash, made.time, made.number, made.slot, now);
  }

  lemma ExtendedOutcome(c: Call, m: Maker, e: Entry, a: Answers)
    requires (forall x :: x in m.queue ==> x.fork != e.fork) && e.task.ExtendedTask? && e.task.number > 0
    ensures ExtendedEffect(c, m, e, a, DoExtended(c, m, e, a))
  {
    if a.arranged && !a.empty && a.signed && a.dispatched.Some? {
      ExtendedMade(c, m, e, Made(a.dispatched.value, e.task.prev, e.task.number, e.time, e.task.slot), a.nextNow);
    } else {
      FollowEffect(c, m, e.fork, e.task.prev, e.time, e.task.number - 1, e.task.slot, a.nextNow);
    }
  }

  /** One step of the maker, whatever the node answers. */
  ghost predicate StepEffect(c: Call, m: Maker, a: Answers, m': Maker)
    requires m.queue != []
  {
    var e := m.queue[0];
    if e.task.SubsidiaryTask? then SubsidiaryEffect(c, m, e, a, m') else ExtendedEffect(c, m, e, a, m')
  }

  lemma NextEffect(c: Call, m: Maker, a: Answers)
    requires Good(c, m) && m.queue != []
    ensures Runnable(m) && Good(c, Next(c, m, a)) && StepEffect(c, m, a, Next(c, m, a))
  {
    NextKeeps(c, m, a);
    PopEffect(c, m);
    var m1, e := m.(queue := m.queue[1..]), m.queue[0];
    if e.task.SubsidiaryTask? {
      SubsidiaryOutcome(c, m1, e, a);
    } else {
      ExtendedOutcome(c, m1, e, a);
    }
  }

  /** The answers agree with the heights and numbers of the blocks they name. */
  ghost predicate Truthful(c: Call, a: Answers, heightOf: Hash -> nat, numberOf: Hash -> nat) {
    && (a.status.Some? ==> heightOf(a.status.value.hash) == a.status.value.height)
    && (a.lastOfHeight.Some? ==> heightOf(a.lastOfHeight.value) == c.prevHeight)
    && (a.replenished.Some? ==> heightOf(a.replenished.value.0) == c.prevHeight)
    && (a.replenished.Some? ==> numberOf(a.replenished.value.0) == a.replenished.value.1)
  }

  /** Where a subsidiary block is put, given that `last` was the fork's last block when its number was
      prepared. It goes one height below its reference block, be the fork ahead, level or behind; and it
      gets the number after its parent's if and only if the gap below it was just filled or its parent
      has the number of `last`. */
  lemma SubsidiaryPlaced(c: Call, stats: map<Hash, (nat, int)>, fork: Hash, last: Hash, a: Answers,
                         heightOf: Hash -> nat, numberOf: Hash -> nat)
    requires Truthful(c, a, heightOf, numberOf)
    ensures var d := Choose(c, stats, fork, numberOf(last) + 1, a);
            && (d.Retry? <==> PutOff(c, a))
            && (d.Use? ==> Placed(c, stats, fork, numberOf(last) + 1, a, d.prev, d.number))
            && (d.Use? ==> heightOf(d.prev) == c.prevHeight)
            && (d.Use? ==> (d.number == numberOf(d.prev) + 1
                            <==> a.status.value.height < c.prevHeight || numberOf(d.prev) == numberOf(last)))
  {
  }

  /** On one branch, where every block has the number after its parent's, that is exactly when the
      fork's last block is still the same. */
  lemma SubsidiaryNumberIff(c: Call, stats: map<Hash, (nat, int)>, fork: Hash, a: Answers, heightOf: Hash -> nat,
      numberOf: Hash -> nat,
                            branch: seq<Hash>, i: nat, j: nat)
    requires Truthful(c, a, heightOf, numberOf) && i < |branch| && j < |branch|
    requires forall k :: 0 < k < |branch| ==> numberOf(branch[k]) == numberOf(branch[k-1]) + 1
    requires a.status.Some? && a.status.value.height >= c.prevHeight
    requires Choose(c, stats, fork, numberOf(branch[j]) + 1, a).Use?
    requires Choose(c, stats, fork, numberOf(branch[j]) + 1, a).prev == branch[i]
    ensures Choose(c, stats, fork, numberOf(branch[j]) + 1, a).number == numberOf(branch[i]) + 1 <==> i == j
  {
    NumbersCount(numberOf, branch, i);
    NumbersCount(numberOf, branch, j);
    SubsidiaryPlaced(c, stats, fork, branch[j], a, heightOf, numberOf);
  }

  lemma {:induction false} NumbersCount(numberOf: Hash -> nat, branch: seq<Hash>, i: nat)
    requires i < |branch| && forall k :: 0 < k < |branch| ==> numberOf(branch[k]) == numberOf(branch[k-1]) + 1
    ensures numberOf(branch[i]) == numberOf(branch[0]) + i
  {
    if i > 0 {
      NumbersCount(numberOf, branch, i - 1);
    }
  }

  /** The other side: a fork that has run ahead gets a block with a number that is too high. */
  lemma StaleNumber(c: Call, stats: map<Hash, (nat, int)>, fork: Hash, a: Answers, number: nat, parent: nat)
    requires a.status.Some? && a.longChain && a.status.value.height > c.prevHeight && a.lastOfHeight.Some?
    requires parent + 1 < number
    ensures Choose(c, stats, fork, number, a) == Use(a.lastOfHeight.value, number) && number != parent + 1
  {
  }

  /** A fork that is far behind is filled up only after it was seen stuck at this height long enough:
      never when first seen there, and the record of that sighting lasts while the height does. */
  lemma FarBehindWaits(c: Call, stats: map<Hash, (nat, int)>, fork: Hash, number: nat, a: Answers)
    requires a.status.Some? && a.longChain && a.status.value.height < c.prevHeight &&
             FarBehind(c, a, a.status.value.height)
    ensures Choose(c, stats, fork, number, a).Use? ==>
      fork in stats && stats[fork].0 == a.status.value.height &&
          c.prevHeight + 1 - stats[fork].1 >= FORK_WAIT_BLOCK_COUNT
    ensures fork in stats && stats[fork].0 == a.status.value.height ==> NewStats(c, stats, fork, a) == stats
  {
    if fork in stats && stats[fork].0 == a.status.value.height {
      assert stats[fork := stats[fork]] == stats;
    }
    var st := a.status.value;
    var n := (c.prevHeight + 1 - st.height) / FORK_WAIT_BLOCK_SECT + 1;
    assert n >= 1;
    MulMonotone(1, n, FORK_WAIT_BLOCK_COUNT);
  }

  // ---------------------------------------------------------------- the producer meets the verifier

  /** An index with the fields the verifier reads. */
  function Plain(kind: BlockType, time: nat): Index {
    Index(0, 0, kind, false, 0, time, 0, 0, 0, 0, 0, Null)
  }

  function Verify(c: Call, prevTime: nat, time: nat, slot: nat, mint: Dest): SubFork.Errno {
    SubFork.VerifySubsidiary(SubFork.Header(Extended, time, 0, slot, mint, None), Plain(Subsidiary, prevTime),
                             Plain(Primary, c.refTime), mint, c.spacing)
  }

  /** The verifier's verdict on the subsidiary block the producer makes. */
  function VerifyFirst(c: Call, parent: Index, mint: Dest): SubFork.Errno {
    SubFork.VerifySubsidiary(SubFork.Header(Subsidiary, c.refTime, 0, 0, mint, None), parent,
        Plain(Primary, c.refTime), mint, c.spacing)
  }

  /** A subsidiary block passes exactly when its parent is earlier than its reference block. */
  lemma SubsidiaryPassesIff(c: Call, parent: Index, mint: Dest)
    ensures VerifyFirst(c, parent, mint) == SubFork.OK <==> parent.time < c.refTime
  {
  }

  /** An accepted block is earlier than every primary block that comes at least the target spacing after
      its own reference. */
  lemma EarlierThanNext(v: SubFork.View, n: Index, time: nat)
    requires SubFork.ViewOk(v) && SubFork.AcceptedNode(v, n) && SubFork.HasRef(v, n)
    requires TimesIncrease(To(SubFork.RefOf(v, n))) && n.height <= SubFork.RefOf(v, n).height
    requires SubFork.RefOf(v, n).time + v.spacing.target <= time
    ensures n.time < time
  {
    var ref := SubFork.RefOf(v, n);
    if n.kind.Vacant? {
      assert SubFork.PrimaryOk(v, ref);
      var a := AncestorAt(To(ref), n.height);
      SubFork.VacantTime(v, n, a);
      AncestorIsEarlier(To(ref), a);
    }
  }

  lemma {:induction false} AncestorIsEarlier(l: Link, a: Index)
    requires TimesIncrease(l) && a in Branch(l)
    ensures a.time <= l.node.time
  {
    if a != l.node {
      AncestorIsEarlier(l.node.prev, a);
    }
  }

  /** So on an accepted parent the subsidiary block meets the verifier, since primary blocks are at least
      the target spacing apart. */
  lemma SubsidiaryPasses(v: SubFork.View, c: Call, parent: Index, mint: Dest)
    requires SubFork.ViewOk(v) && SubFork.AcceptedNode(v, parent) && SubFork.HasRef(v, parent)
    requires TimesIncrease(To(SubFork.RefOf(v, parent))) && parent.height <= SubFork.RefOf(v, parent).height
    requires SubFork.RefOf(v, parent).time + v.spacing.target <= c.refTime
    ensures VerifyFirst(c, parent, mint) == SubFork.OK
  {
    EarlierThanNext(v, parent, c.refTime);
    SubsidiaryPassesIff(c, parent, mint);
  }

  lemma DivBound(x: nat, y: nat, d: nat)
    requires d > 0
    ensures y * d <= x <==> y <= x / d
  {
    var q := x / d;
    assert q * d <= x < q * d + d;
    if y <= q {
      MulMonotone(y, q, d);
    } else {
      MulMonotone(q + 1, y, d);
    }
  }

  lemma SlotTime(e: SubFork.Seconds, slot: nat)
    ensures (e * slot) % e == 0 && (e * slot) / e == slot
  {
    DivUnique(e * slot, slot, 0, e);
  }

  /** A block on its slot, later than its parent, passes exactly when the slot number is in range. */
  lemma OnSlotPasses(c: Call, prevTime: nat, time: nat, slot: nat, mint: Dest)
    requires OnSlot(c, time, slot) && slot > 0 && prevTime < time
    ensures Verify(c, prevTime, time, slot, mint) == SubFork.OK <==> slot < c.spacing.target / c.spacing.extended
  {
    SlotTime(c.spacing.extended, slot);
    assert time - c.refTime == c.spacing.extended * slot;
    MulMonotone(1, slot, c.spacing.extended);
  }

  /** The extended spacing divides the target spacing, or leaves no room for an extended block. */
  predicate SlotsFit(s: SubFork.Spacing) {
    s.target % s.extended == 0 || s.target < s.extended
  }

  lemma SlotInRange(c: Call, slot: nat)
    requires SlotsFit(c.spacing) && slot > 0 && c.spacing.extended * slot < c.spacing.target
    ensures slot < c.spacing.target / c.spacing.extended
  {
    var t, e := c.spacing.target, c.spacing.extended;
    MulMonotone(1, slot, e);
    assert t == e * (t / e);
    if slot >= t / e {
      MulMonotone(t / e, slot, e);
    }
  }

  lemma LastSlotFails(c: Call, mint: Dest)
    requires !SlotsFit(c.spacing)
    ensures var slot := c.spacing.target / c.spacing.extended;
            && slot > 0 && OnSlot(c, c.refTime + c.spacing.extended * slot, slot)
            && Verify(c, c.refTime, c.refTime + c.spacing.extended * slot, slot, mint) != SubFork.OK
  {
    var t, e := c.spacing.target, c.spacing.extended;
    DivBound(t, 1, e);
    assert t == e * (t / e) + t % e;
    MulMonotone(1, t / e, e);
    OnSlotPasses(c, c.refTime, c.refTime + e * (t / e), t / e, mint);
  }

  /** Every extended block in the queue passes the slot and time checks. */
  lemma QueuedPasses(c: Call, m: Maker, e: Entry, mint: Dest)
    requires Good(c, m) && e in m.queue && e.task.ExtendedTask? && SlotsFit(c.spacing)
    ensures ProgressOf(m, e.fork).log != []
    ensures Verify(c, ProgressOf(m, e.fork).log[|ProgressOf(m, e.fork).log|-1].time, e.time, e.task.slot, mint) ==
            SubFork.OK
  {
    var p := ProgressOf(m, e.fork);
    assert TaskOk(c, p, e);
    var last := p.log[|p.log|-1];
    assert ProgressOk(c, p);
    assert OnSlot(c, last.time, last.slot);
    LaterSlot(c, last.time, last.slot, e.time, e.task.slot);
    SlotInRange(c, e.task.slot);
    OnSlotPasses(c, last.time, e.time, e.task.slot, mint);
  }

  lemma LaterSlot(c: Call, t: nat, k: nat, t': nat, k': nat)
    requires OnSlot(c, t, k) && OnSlot(c, t', k') && k < k'
    ensures t < t'
  {
    MulMonotone(k + 1, k', c.spacing.extended);
    assert c.spacing.extended * (k + 1) == c.spacing.extended * k + c.spacing.extended;
  }

  /** The divisibility is needed: without it the last slot that is queued is one the verifier refuses. */
  lemma AllSlotsPassIff(c: Call, mint: Dest)
    ensures SlotsFit(c.spacing) <==>
      forall slot: nat :: slot > 0 && OnSlot(c, c.refTime + c.spacing.extended * slot, slot)
        ==> Verify(c, c.refTime, c.refTime + c.spacing.extended * slot, slot, mint) == SubFork.OK
  {
    if SlotsFit(c.spacing) {
      forall slot: nat | slot > 0 && OnSlot(c, c.refTime + c.spacing.extended * slot, slot)
        ensures Verify(c, c.refTime, c.refTime + c.spacing.extended * slot, slot, mint) == SubFork.OK
      {
        MulMonotone(1, slot, c.spacing.extended);
        SlotInRange(c, slot);
        OnSlotPasses(c, c.refTime, c.refTime + c.spacing.extended * slot, slot, mint);
      }
    } else {
      LastSlotFails(c, mint);
    }
  }

  /** The node knows the reference block of the round, drawn by ballot. */
  ghost predicate RefKnown(v: SubFork.View, c: Call) {
    && c.ref != 0 && c.ref in v.blocks && v.blocks[c.ref].IsPrimary() && v.blocks[c.ref].time == c.refTime
    && c.ref in v.agreements && !v.agreements[c.ref].work
  }

  /** The proof all blocks of the round carry. */
  ghost function RoundProof(v: SubFork.View, c: Call): SubFork.Proof
    requires RefKnown(v, c)
  {
    SubFork.Proof(c.ref, v.agreements[c.ref].agreement, v.agreements[c.ref].weight)
  }

  /** The header of a block the producer makes in this round. */
  ghost function RoundHeader(v: SubFork.View, c: Call, kind: BlockType, time: nat, height: nat, slot: nat):
      SubFork.Header
    requires RefKnown(v, c)
  {
    SubFork.Header(kind, time, height, slot, v.agreements[c.ref].ballot, Some(RoundProof(v, c)))
  }

  /** The whole of VerifyBlock on the producer's subsidiary block: it passes exactly when the parent
      starts the fork or refers to an ancestor of the round's reference, and is earlier than that. */
  lemma SubsidiaryAcceptedIff(v: SubFork.View, c: Call, parent: Index, height: nat)
    requires SubFork.ViewOk(v) && RefKnown(v, c) && v.rewardKnown && !parent.IsPrimary()
    ensures var h := RoundHeader(v, c, Subsidiary, c.refTime, height, 0);
            SubFork.VerifyBlock(v, h, parent) == SubFork.OK
            <==> SubFork.Continues(v, h, parent) && parent.time < c.refTime
  {
    SubFork.VerifyBlockIff(v, RoundHeader(v, c, Subsidiary, c.refTime, height, 0), parent);
  }

  /** So it passes on any accepted block whose reference is an ancestor at least the target spacing
      earlier. */
  lemma SubsidiaryAccepted(v: SubFork.View, c: Call, parent: Index, height: nat)
    requires SubFork.ViewOk(v) && RefKnown(v, c) && v.rewardKnown
    requires SubFork.AcceptedNode(v, parent) && SubFork.HasRef(v, parent)
    requires TimesIncrease(To(SubFork.RefOf(v, parent))) && parent.height <= SubFork.RefOf(v, parent).height
    requires IsAncestor(SubFork.RefOf(v, parent), v.blocks[c.ref])
    requires SubFork.RefOf(v, parent).time + v.spacing.target <= c.refTime
    ensures SubFork.VerifyBlock(v, RoundHeader(v, c, Subsidiary, c.refTime, height, 0), parent) == SubFork.OK
  {
    EarlierThanNext(v, parent, c.refTime);
    SubsidiaryAcceptedIff(v, c, parent, height);
  }

  /** The whole of VerifyBlock on a queued extended block: it passes on the fork's last made block. */
  lemma ExtendedAccepted(v: SubFork.View, c: Call, m: Maker, e: Entry, parent: Index, height: nat)
    requires SubFork.ViewOk(v) && RefKnown(v, c) && v.spacing == c.spacing && SlotsFit(c.spacing)
    requires Good(c, m) && e in m.queue && e.task.ExtendedTask? && ProgressOf(m, e.fork).log != []
    requires parent.kind.Subsidiary? || parent.kind.Extended?
    requires parent.time == ProgressOf(m, e.fork).log[|ProgressOf(m, e.fork).log|-1].time
    requires parent.hash in v.proofs && v.proofs[parent.hash] == Some(RoundProof(v, c))
    ensures SubFork.VerifyBlock(v, RoundHeader(v, c, Extended, e.time, height, e.task.slot), parent) == SubFork.OK
  {
    var h := RoundHeader(v, c, Extended, e.time, height, e.task.slot);
    QueuedPasses(c, m, e, h.mint);
    SubFork.VerifySubsidiaryIff(SubFork.Header(Extended, e.time, 0, e.task.slot, h.mint, None),
        Plain(Subsidiary, parent.time), Plain(Primary, c.refTime), h.mint, c.spacing);
    SubFork.VerifyBlockIff(v, h, parent);
  }

  // ---------------------------------------------------------------- termination

  /** How much a task can still lead to. */
  function Weight(c: Call, e: Entry): int {
    match e.task
    case SubsidiaryTask(_) => c.spacing.target + 1
    case ExtendedTask(_, _, slot) => c.spacing.target - c.spacing.extended * slot
  }

  ghost function Work(c: Call, q: seq<Entry>): int {
    if q == [] then 0 else Weight(c, q[0]) + Work(c, q[1..])
  }

  lemma {:induction false} InsertWork(c: Call, q: seq<Entry>, e: Entry)
    ensures Work(c, Insert(q, e)) == Work(c, q) + Weight(c, e)
  {
    if q == [] || e.time < q[0].time {
      assert ([e] + q)[1..] == q;
    } else {
      InsertWork(c, q[1..], e);
      assert ([q[0]] + Insert(q[1..], e))[1..] == Insert(q[1..], e);
    }
  }

  lemma {:induction false} WorkPositive(c: Call, m: Maker, q: seq<Entry>)
    requires TasksOk(c, m) && forall e :: e in q ==> e in m.queue
    ensures Work(c, q) >= |q|
  {
    if q != [] {
      assert q[0] in q && TaskOk(c, ProgressOf(m, q[0].fork), q[0]);
      WorkPositive(c, m, q[1..]);
    }
  }

  /** A subsidiary block is put off, to be tried again. */
  predicate PutBack(c: Call, m: Maker, a: Answers)
    requires m.queue != []
  {
    var e := m.queue[0];
    e.task.SubsidiaryTask? && Choose(c, m.stats, e.fork, e.task.number, a).Retry?
  }

  lemma FollowWork(c: Call, m: Maker, fork: Hash, prev: Hash, prevTime: nat, prevNumber: nat, prevSlot: nat, now: nat)
    requires prevTime == c.refTime + c.spacing.extended * prevSlot && c.spacing.extended * prevSlot < c.spacing.target
    ensures Work(c, Follow(c, m, fork, prev, prevTime, prevNumber, prevSlot, now).queue)
            < Work(c, m.queue) + c.spacing.target - c.spacing.extended * prevSlot
  {
    var e := Entry(prevTime + c.spacing.extended, fork, ExtendedTask(prev, prevNumber + 1, prevSlot + 1));
    InsertWork(c, m.queue, e);
    assert c.spacing.extended * (prevSlot + 1) == c.spacing.extended * prevSlot + c.spacing.extended;
  }

  lemma DoExtendedWork(c: Call, m: Maker, e: Entry, a: Answers)
    requires e.task.ExtendedTask? && e.task.number > 0 && OnSlot(c, e.time, e.task.slot)
    ensures Work(c, DoExtended(c, m, e, a).queue) < Work(c, m.queue) + Weight(c, e)
  {
    var t := e.task;
    if a.arranged && !a.empty && a.signed && a.dispatched.Some? {
      var made := Made(a.dispatched.value, t.prev, t.number, e.time, t.slot);
      FollowWork(c, Record(m, e.fork, made), e.fork, made.hash, e.time, t.number, t.slot, a.nextNow);
    } else {
      FollowWork(c, m, e.fork, t.prev, e.time, t.number - 1, t.slot, a.nextNow);
    }
  }

  lemma DoSubsidiaryWork(c: Call, m: Maker, fork: Hash, number: nat, a: Answers)
    ensures Work(c, DoSubsidiary(c, m, fork, number, a).queue)
            <= Work(c, m.queue) + c.spacing.target + if Choose(c, m.stats, fork, number, a).Retry? then 1 else 0
  {
    var m1 := m.(stats := NewStats(c, m.stats, fork, a));
    match Choose(c, m.stats, fork, number, a)
    case Drop =>
    case Retry => InsertWork(c, m1.queue, Entry(a.requeueNow + 1, fork, SubsidiaryTask(number)));
    case Use(prev, n) =>
      if prev != 0 && a.created && a.dispatched.Some? {
        var made := Made(a.dispatched.value, prev, n, c.refTime, 0);
        FollowWork(c, Record(m1, fork, made), fork, made.hash, c.refTime, n, 0, a.nextNow);
      }
  }

  /** Every task that is not put back leaves less to do. */
  lemma NextShrinks(c: Call, m: Maker, a: Answers)
    requires Good(c, m) && m.queue != []
    ensures Runnable(m)
    ensures if PutBack(c, m, a) then Work(c, Next(c, m, a).queue) <= Work(c, m.queue)
            else Work(c, Next(c, m, a).queue) < Work(c, m.queue)
  {
    GoodIsRunnable(c, m);
    var m1, e := m.(queue := m.queue[1..]), m.queue[0];
    match e.task
    case SubsidiaryTask(number) => DoSubsidiaryWork(c, m1, e.fork, number, a);
    case ExtendedTask(_, _, _) => DoExtendedWork(c, m1, e, a);
  }

  // ---------------------------------------------------------------- whole runs

  /** The run on a list of answers; the node exits when they end. */
  ghost function RunAll(c: Call, m: Maker, answers: seq<Answers>): Maker {
    if answers == [] then m
    else
      var m' := RunAll(c, m, answers[..|answers|-1]);
      if Runnable(m') then Next(c, m', answers[|answers|-1]) else m'
  }

  ghost function TasksDone(c: Call, m: Maker, answers: seq<Answers>): nat {
    if answers == [] then 0
    else
      var m' := RunAll(c, m, answers[..|answers|-1]);
      TasksDone(c, m, answers[..|answers|-1]) + if Runnable(m') && !PutBack(c, m', answers[|answers|-1]) then 1 else 0
  }

  /** The invariant holds after any run, and the number of tasks that are not put back is bounded. */
  lemma {:induction false} RunAllGood(c: Call, m: Maker, answers: seq<Answers>)
    requires Good(c, m)
    ensures Good(c, RunAll(c, m, answers))
    ensures TasksDone(c, m, answers) + Work(c, RunAll(c, m, answers).queue) <= Work(c, m.queue)
  {
    if answers != [] {
      RunAllGood(c, m, answers[..|answers|-1]);
      var m' := RunAll(c, m, answers[..|answers|-1]);
      if Runnable(m') {
        NextKeeps(c, m', answers[|answers|-1]);
        NextShrinks(c, m', answers[|answers|-1]);
      }
    }
  }

  lemma {:induction false} SubsidiaryWork(c: Call, q: seq<Entry>)
    requires forall e :: e in q ==> e.task.SubsidiaryTask?
    ensures Work(c, q) == |q| * (c.spacing.target + 1)
  {
    if q != [] {
      assert q[0] in q;
      SubsidiaryWork(c, q[1..]);
    }
  }

  /** However long it runs, a call processes a bounded number of tasks, apart from those put back
      before their time. */
  lemma TasksBounded(c: Call, m: Maker, answers: seq<Answers>)
    requires Good(c, m) && forall e :: e in m.queue ==> e.task.SubsidiaryTask?
    ensures TasksDone(c, m, answers) <= |m.queue| * (c.spacing.target + 1)
  {
    RunAllGood(c, m, answers);
    var m' := RunAll(c, m, answers);
    WorkPositive(c, m', m'.queue);
    SubsidiaryWork(c, m.queue);
  }

  /** After any run, an extended block in the queue is the next block after the fork's last dispatched
      one, in the only slot left to try, and passes the verifier. */
  lemma EveryQueuedBlock(c: Call, m: Maker, answers: seq<Answers>, e: Entry, mint: Dest)
    requires Good(c, m) && SlotsFit(c.spacing) && e in RunAll(c, m, answers).queue && e.task.ExtendedTask?
    ensures var p := ProgressOf(RunAll(c, m, answers), e.fork);
            && p.log != []
            && e.task.prev == p.log[|p.log|-1].hash && e.task.number == p.log[|p.log|-1].number + 1
            && e.task.slot == p.slots && c.spacing.extended * p.slots < c.spacing.target
            && Verify(c, p.log[|p.log|-1].time, e.time, e.task.slot, mint) == SubFork.OK
  {
    RunAllGood(c, m, answers);
    QueuedPasses(c, RunAll(c, m, answers), e, mint);
    assert TaskOk(c, ProgressOf(RunAll(c, m, answers), e.fork), e);
  }

  /** ProcessSubFork. */
  class ForkMaker {
    const call: Call
    var queue: seq<Entry>
    var stats: map<Hash, (nat, int)>
    var progress: map<Hash, Progress>

    function State(): Maker
      reads this
    {
      Maker(queue, stats, progress)
    }

    constructor (call: Call, stats: map<Hash, (nat, int)>)
      ensures this.call == call && State() == Maker([], stats, map[]) && Good(call, State())
    {
      this.call, this.queue, this.stats, this.progress := call, [], stats, map[];
    }

    /** One subsidiary task for each allowed fork but the primary chain itself. */
    method Prepare(numbers: map<Hash, nat>, served: set<Hash>, contexts: set<Hash>) returns (ok: bool)
      requires served <= numbers.Keys && State() == Maker([], stats, map[])
      modifies this`queue
      ensures ok <==> served <= contexts
      ensures ok ==> Good(call, State()) && |queue| == |served|
      ensures ok ==> forall e :: e in queue <==>
        e.fork in served && e == Entry(call.refTime, e.fork, SubsidiaryTask(numbers[e.fork] + 1))
    {
      var todo := served;
      while todo != {}
        invariant todo <= served && served - todo <= contexts
        invariant Good(call, State()) && |queue| + |todo| == |served|
        invariant forall e :: e in queue <==>
          e.fork in served - todo && e == Entry(call.refTime, e.fork, SubsidiaryTask(numbers[e.fork] + 1))
        decreases |todo|
      {
        var f := Least(todo);
        if f !in contexts {
          return false;
        }
        var e := Entry(call.refTime, f, SubsidiaryTask(numbers[f] + 1));
        InsertElements(queue, e);
        RetryKeeps(call, State(), f, e);
        InsertSize(queue, e);
        queue := Insert(queue, e);
        todo := todo - {f};
      }
      return true;
    }

    method Step(a: Answers)
      requires queue != [] && Good(call, State())
      modifies this
      ensures Runnable(old(State())) && State() == Next(call, old(State()), a) && Good(call, State())
      ensures StepEffect(call, old(State()), a, State())
    {
      NextEffect(call, State(), a);
      var e := queue[0];
      queue := queue[1..];
      match e.task
      case SubsidiaryTask(number) => Subsidiary(e.fork, number, a);
      case ExtendedTask(_, _, _) => Extended(e, a);
    }

    method Subsidiary(fork: Hash, number: nat, a: Answers)
      modifies this
      ensures State() == DoSubsidiary(call, old(State()), fork, number, a)
    {
      var d := Choose(call, stats, fork, number, a);
      stats := NewStats(call, stats, fork, a);
      match d
      case Drop =>
      case Retry => queue := Insert(queue, Entry(a.requeueNow + 1, fork, SubsidiaryTask(number)));
      case Use(prev, n) =>
        if prev != 0 && a.created && a.dispatched.Some? {
          Dispatched(fork, Made(a.dispatched.value, prev, n, call.refTime, 0));
          NextTask(fork, a.dispatched.value, call.refTime, n, 0, a.nextNow);
        }
    }

    method Extended(e: Entry, a: Answers)
      requires e.task.ExtendedTask? && e.task.number > 0
      modifies this
      ensures State() == DoExtended(call, old(State()), e, a)
    {
      var t := e.task;
      var prev, number := t.prev, t.number - 1;
      if a.arranged && !a.empty && a.signed && a.dispatched.Some? {
        Dispatched(e.fork, Made(a.dispatched.value, t.prev, t.number, e.time, t.slot));
        prev, number := a.dispatched.value, t.number;
      }
      NextTask(e.fork, prev, e.time, number, t.slot, a.nextNow);
    }

    method Dispatched(fork: Hash, made: Made)
      modifies this
      ensures State() == Record(old(State()), fork, made)
    {
      var p := if fork in progress then progress[fork] else Progress([], 0);
      progress := progress[fork := p.(log := p.log + [made])];
    }

    method NextTask(fork: Hash, prev: Hash, prevTime: nat, prevNumber: nat, prevSlot: nat, now: nat)
      modifies this
      ensures State() == Follow(call, old(State()), fork, prev, prevTime, prevNumber, prevSlot, now)
    {
      if prevTime + call.spacing.extended < call.refTime + call.spacing.target &&
          now < call.refTime + call.spacing.target {
        queue := Insert(queue, Entry(prevTime + call.spacing.extended, fork,
            ExtendedTask(prev, prevNumber + 1, prevSlot + 1)));
        var p := if fork in progress then progress[fork] else Progress([], 0);
        progress := progress[fork := p.(slots := p.slots + 1)];
      }
    }

    /** The loop: until the queue is empty or the node exits. */
    method Process(answers: seq<Answers>)
      requires Good(call, State())
      modifies this
      ensures State() == RunAll(call, old(State()), answers) && Good(call, State())
    {
      ghost var m := State();
      var i := 0;
      while i < |answers| && queue != []
        invariant 0 <= i <= |answers|
        invariant Good(call, State()) && State() == RunAll(call, m, answers[..i])
      {
        RunAllStep(call, m, answers, i);
        Step(answers[i]);
        i := i + 1;
      }
      if queue == [] {
        EmptyStays(call, m, answers, i);
      } else {
        assert answers[..i] == answers;
      }
    }
  }

  lemma RunAllStep(c: Call, m: Maker, answers: seq<Answers>, i: nat)
    requires i < |answers|
    ensures var m' := RunAll(c, m, answers[..i]);
            Runnable(m') ==> RunAll(c, m, answers[..i+1]) == Next(c, m', answers[i])
  {
    assert answers[..i+1][..i] == answers[..i];
  }

  lemma {:induction false} EmptyStays(c: Call, m: Maker, answers: seq<Answers>, i: nat)
    requires i <= |answers| && RunAll(c, m, answers[..i]).queue == []
    ensures RunAll(c, m, answers) == RunAll(c, m, answers[..i])
    decreases |answers|
  {
    if i == |answers| {
      assert answers[..i] == answers;
    } else {
      assert answers[..|answers|-1][..i] == answers[..i];
      EmptyStays(c, m, answers[..|answers|-1], i);
    }
  }

  // ---------------------------------------------------------------- vacant blocks

  /** CBlockChain::GetLastBlockTime: the times of the last blocks of a fork, newest first. */
  function LastTimes(l: Link, depth: int): seq<nat> {
    if depth <= 0 || l.Null? then []
    else [l.node.time] + LastTimes(l.node.prev, if l.node.kind.Extended? then depth else depth - 1)
  }

  method GetLastBlockTime(tip: Link, depth: int) returns (times: seq<nat>)
    ensures times == LastTimes(tip, depth)
  {
    times := [];
    var l, n := tip, depth;
    while n > 0 && l.To?
      invariant LastTimes(tip, depth) == times + LastTimes(l, n)
      decreases l
    {
      times := times + [l.node.time];
      if !l.node.kind.Extended? {
        n := n - 1;
      }
      l := l.node.prev;
    }
  }

  /** The primary chain: no extended blocks, heights counted from the root. */
  ghost predicate PrimaryChain(l: Link) {
    SubFork.Counted(l) && forall n :: n in Branch(l) ==> n.IsPrimary()
  }

  /** The i-th time is that of the block i below the tip. */
  lemma {:induction false} LastTimesAt(l: Link, depth: nat, i: nat)
    requires PrimaryChain(l) && l.To? && i < depth && i <= l.node.height
    ensures i < |LastTimes(l, depth)| && SubFork.TimeAt(l, l.node.height - i) == Some(LastTimes(l, depth)[i])
  {
    assert l.node in Branch(l);
    if i > 0 {
      PrimaryBelow(l);
      LastTimesAt(l.node.prev, depth - 1, i - 1);
    }
  }

  lemma PrimaryBelow(l: Link)
    requires PrimaryChain(l) && l.To?
    ensures PrimaryChain(l.node.prev)
  {
    forall n | n in Branch(l.node.prev) ensures n.IsPrimary() {
      assert n in Branch(l);
    }
  }

  datatype Vacancy = Vacancy(hash: Hash, prev: Hash, height: nat, number: nat, time: nat)

  /** The i-th vacant block after a fork's last block, with the time of the primary block that lies
      `above` blocks over its height. */
  ghost predicate Vacates(tip: Link, above: int, prev: Hash, height: nat, number: nat, b: Vacancy) {
    && b.prev == prev && b.height == height && b.number == number
    && height + above >= 0 && SubFork.TimeAt(tip, height + above) == Some(b.time)
  }

  function LastHash(last: Hash, made: seq<Vacancy>): Hash {
    if made == [] then last else made[|made|-1].hash
  }

  /** Consecutive vacant blocks from a fork's last block on, with the given hashes. */
  ghost predicate Filled(tip: Link, above: int, last: Hash, height: nat, number: nat, hashes: seq<Hash>,
      made: seq<Vacancy>) {
    && |made| <= |hashes|
    && forall i :: 0 <= i < |made| ==>
         made[i].hash == hashes[i] &&
         Vacates(tip, above, LastHash(last, made[..i]), height + 1 + i, number + 1 + i, made[i])
  }

  lemma FilledAppend(tip: Link, above: int, last: Hash, height: nat, number: nat, hashes: seq<Hash>,
      made: seq<Vacancy>, time: nat)
    requires Filled(tip, above, last, height, number, hashes, made) && |made| < |hashes|
    requires height + 1 + |made| + above >= 0 && SubFork.TimeAt(tip, height + 1 + |made| + above) == Some(time)
    ensures Filled(tip, above, last, height, number, hashes, made +
              [Vacancy(hashes[|made|], LastHash(last, made), height + 1 + |made|, number + 1 + |made|, time)])
  {
    var b := Vacancy(hashes[|made|], LastHash(last, made), height + 1 + |made|, number + 1 + |made|, time);
    var made' := made + [b];
    forall i | 0 <= i < |made'| ensures made'[i].hash == hashes[i] &&
        Vacates(tip, above, LastHash(last, made'[..i]), height + 1 + i, number + 1 + i, made'[i]) {
      assert made'[..i] == made[..i];
      if i == |made| {
        assert made[..i] == made;
      }
    }
  }

  function Missing(height: nat, prevHeight: nat): nat {
    if height < prevHeight then prevHeight - height else 0
  }

  /** The next vacant block, with the time of the primary block as far below the tip as its height is
      below `primaryHeight`. */
  method CreateVacant(tip: Index, ghost last: Hash, height: nat, ghost number: nat, primaryHeight: nat,
      times: seq<nat>, hashes: seq<Hash>, made: seq<Vacancy>, hash: Hash, next: nat, count: nat)
      returns (b: Vacancy)
    requires PrimaryChain(To(tip)) && times == LastTimes(To(tip), primaryHeight - height)
    requires height < next < primaryHeight && primaryHeight - next <= tip.height
    requires |made| == next - height - 1 < |hashes| && hash == LastHash(last, made) && count == number + |made|
    requires Filled(To(tip), tip.height - primaryHeight, last, height, number, hashes, made)
    ensures Filled(To(tip), tip.height - primaryHeight, last, height, number, hashes, made + [b])
  {
    var depth := primaryHeight - next;
    LastTimesAt(To(tip), primaryHeight - height, depth);
    var time := times[depth];
    assert height + 1 + |made| + (tip.height - primaryHeight) == tip.height - depth;
    FilledAppend(To(tip), tip.height - primaryHeight, last, height, number, hashes, made, time);
    b := Vacancy(hashes[|made|], hash, next, count + 1, time);
    assert b == Vacancy(hashes[|made|], LastHash(last, made), height + 1 + |made|, number + 1 + |made|, time);
  }

  /** ReplenishSubForkVacant. `hashes` are those of the blocks that can be made and dispatched. */
  method ReplenishSubForkVacant(tip: Index, last: Hash, height: nat, number: nat, prevHeight: nat, hashes: seq<Hash>)
    returns (ok: bool, made: seq<Vacancy>, hash: Hash, count: nat)
    requires PrimaryChain(To(tip)) && Missing(height, prevHeight) <= tip.height
    ensures Filled(To(tip), tip.height - (prevHeight + 1), last, height, number, hashes, made)
    ensures ok <==> |hashes| >= Missing(height, prevHeight)
    ensures |made| == if ok then Missing(height, prevHeight) else |hashes|
    ensures hash == LastHash(last, made) && count == number + |made|
  {
    var primaryHeight := prevHeight + 1;
    var next := height + 1;
    var times := GetLastBlockTime(To(tip), primaryHeight - height);
    made, hash, count, ok := [], last, number, true;
    while next < primaryHeight && ok
      invariant height + 1 <= next && |made| == next - height - 1 <= Missing(height, prevHeight)
      invariant Filled(To(tip), tip.height - primaryHeight, last, height, number, hashes, made)
      invariant hash == LastHash(last, made) && count == number + |made|
      invariant !ok ==> |made| == |hashes| < Missing(height, prevHeight)
      decreases primaryHeight - next, ok
    {
      if |made| >= |hashes| {
        ok := false;
      } else {
        var b := CreateVacant(tip, last, height, number, primaryHeight, times, hashes, made, hash, next, count);
        made := made + [b];
        hash := b.hash;
        next := next + 1;
        count := count + 1;
      }
    }
  }

  ghost predicate TimesIncrease(l: Link) {
    l.To? && l.node.prev.To? ==> l.node.prev.node.time < l.node.time && TimesIncrease(l.node.prev)
  }

  lemma {:induction false} TimeAtIncreases(l: Link, h: nat, k: nat)
    requires SubFork.Counted(l) && TimesIncrease(l) && l.To? && h < k <= l.node.height
    ensures SubFork.TimeAt(l, h).Some? && SubFork.TimeAt(l, k).Some? &&
            SubFork.TimeAt(l, h).value < SubFork.TimeAt(l, k).value
  {
    if k < l.node.height {
      TimeAtIncreases(l.node.prev, h, k);
    } else if h < l.node.height - 1 {
      TimeAtIncreases(l.node.prev, h, l.node.height - 1);
    }
  }

  lemma {:induction false} TimeAtBelow(l: Link, a: Index, h: nat)
    requires SubFork.Counted(l) && a in Branch(l) && h <= a.height
    ensures SubFork.TimeAt(l, h) == SubFork.TimeAt(To(a), h)
  {
    SubFork.AncestorIsLower(a, l);
    if a != l.node {
      SubFork.AncestorIsLower(a, l.node.prev);
      TimeAtBelow(l.node.prev, a, h);
    }
  }

  /** The verifier's time rule for vacant blocks: the time of the primary block at that height. */
  lemma CheckVacantIff(v: SubFork.View, h: SubFork.Header, ref: Index)
    requires SubFork.PrimaryOk(v, ref) && h.height <= ref.height
    ensures SubFork.CheckVacant(v, h, ref) == SubFork.OK <==> SubFork.TimeAt(To(ref), h.height) == Some(h.time)
  {
    if SubFork.TimesAgree(v, h.height, h.time) {
      AgreeingTimes(v, ref, h.height, h.time);
    }
  }

  /** The time of the block `above` blocks higher is the same only when it is the same block. */
  lemma ShiftedTimes(l: Link, h: nat, above: nat)
    requires SubFork.Counted(l) && TimesIncrease(l) && l.To? && h + above <= l.node.height
    ensures SubFork.TimeAt(l, h) == SubFork.TimeAt(l, h + above) <==> above == 0
  {
    if above > 0 {
      TimeAtIncreases(l, h, h + above);
    }
  }

  /** A block's time is the primary time at its height below `ref` exactly when the tip is `ref`. */
  lemma ShiftedVacancy(tip: Index, ref: Index, b: Vacancy)
    requires SubFork.Counted(To(tip)) && TimesIncrease(To(tip)) && IsAncestor(ref, tip) && b.height <= ref.height
    requires b.height + (tip.height - ref.height) >= 0 &&
             SubFork.TimeAt(To(tip), b.height + (tip.height - ref.height)) == Some(b.time)
    ensures SubFork.TimeAt(To(ref), b.height) == Some(b.time) <==> tip.height == ref.height
  {
    SubFork.AncestorIsLower(ref, To(tip));
    TimeAtBelow(To(tip), ref, b.height);
    ShiftedTimes(To(tip), b.height, tip.height - ref.height);
  }

  /** Vacant blocks meet the verifier's time rule exactly when the primary chain of the tip has, as many
      blocks higher as the tip is above the reference block, the time the reference's chain has. */
  lemma VacancyPassesIff(v: SubFork.View, tip: Index, ref: Index, prev: Hash, number: nat, b: Vacancy,
      h: SubFork.Header)
    requires SubFork.PrimaryOk(v, ref) && b.height <= ref.height && h.height == b.height && h.time == b.time
    requires Vacates(To(tip), tip.height - ref.height, prev, b.height, number, b)
    ensures SubFork.CheckVacant(v, h, ref) == SubFork.OK
            <==> SubFork.TimeAt(To(ref), b.height) == SubFork.TimeAt(To(tip), b.height + (tip.height - ref.height))
  {
    CheckVacantIff(v, h, ref);
  }

  /** While the reference block is on the tip's chain, that is exactly when it is the tip: a primary
      chain that has moved on shifts all times. */
  lemma VacancyOnChainIff(v: SubFork.View, tip: Index, ref: Index, prev: Hash, number: nat, b: Vacancy,
      h: SubFork.Header)
    requires SubFork.PrimaryOk(v, ref) && SubFork.Counted(To(tip)) && TimesIncrease(To(tip)) && IsAncestor(ref, tip)
    requires Vacates(To(tip), tip.height - ref.height, prev, b.height, number, b) && b.height <= ref.height
    requires h.height == b.height && h.time == b.time
    ensures SubFork.CheckVacant(v, h, ref) == SubFork.OK <==> tip.height == ref.height
  {
    VacancyPassesIff(v, tip, ref, prev, number, b, h);
    ShiftedVacancy(tip, ref, b);
  }

  /** The whole of VerifyBlock on the producer's vacant blocks, with the reference on the tip's chain. */
  lemma VacancyAcceptedIff(v: SubFork.View, c: Call, tip: Index, parent: Index, prev: Hash, number: nat, b: Vacancy)
    requires SubFork.ViewOk(v) && RefKnown(v, c) && b.height <= v.blocks[c.ref].height
    requires SubFork.Counted(To(tip)) && TimesIncrease(To(tip)) && IsAncestor(v.blocks[c.ref], tip)
    requires Vacates(To(tip), tip.height - v.blocks[c.ref].height, prev, b.height, number, b)
    ensures var h := RoundHeader(v, c, Vacant, b.time, b.height, 0);
            SubFork.VerifyBlock(v, h, parent) == SubFork.OK
            <==> SubFork.Continues(v, h, parent) && tip.height == v.blocks[c.ref].height
  {
    var h := RoundHeader(v, c, Vacant, b.time, b.height, 0);
    assert SubFork.PrimaryOk(v, v.blocks[c.ref]);
    VacancyOnChainIff(v, tip, v.blocks[c.ref], prev, number, b, h);
    SubFork.VacantIff(v, h, parent);
  }

  /** After a reorganisation to another tip of the same height, the vacant blocks up to the fork point
      still pass. */
  lemma VacancyBelowForkPasses(v: SubFork.View, tip: Index, ref: Index, base: Index, prev: Hash, number: nat,
      b: Vacancy,
                               h: SubFork.Header)
    requires SubFork.PrimaryOk(v, ref) && SubFork.Counted(To(tip)) && tip.height == ref.height
    requires IsAncestor(base, tip) && IsAncestor(base, ref) && b.height <= base.height
    requires Vacates(To(tip), 0, prev, b.height, number, b) && h.height == b.height && h.time == b.time
    ensures SubFork.CheckVacant(v, h, ref) == SubFork.OK
  {
    SubFork.AncestorIsLower(base, To(ref));
    TimeAtBelow(To(tip), base, b.height);
    TimeAtBelow(To(ref), base, b.height);
    VacancyPassesIff(v, tip, ref, prev, number, b, h);
  }

  /** The other side: one new primary block is enough for the last vacant block to be refused. */
  lemma MovedTipFails(v: SubFork.View, tip: Index, ref: Index, prev: Hash, number: nat, b: Vacancy, h: SubFork.Header)
    requires SubFork.PrimaryOk(v, ref) && tip.prev == To(ref) && tip.height == ref.height + 1 && ref.time < tip.time
    requires b.height == ref.height && Vacates(To(tip), 1, prev, b.height, number, b) && h.height == b.height &&
             h.time == b.time
    ensures b.time == tip.time && SubFork.CheckVacant(v, h, ref) != SubFork.OK
  {
    VacancyPassesIff(v, tip, ref, prev, number, b, h);
  }

  lemma AgreeingTimes(v: SubFork.View, ref: Index, h: nat, time: nat)
    requires SubFork.PrimaryOk(v, ref) && h <= ref.height && SubFork.TimesAgree(v, h, time)
    ensures SubFork.TimeAt(To(ref), h) == Some(time)
  {
    var a := AncestorAt(To(ref), h);
    SubFork.TimeAtAncestor(To(ref), a);
  }

  lemma {:induction false} AncestorAt(l: Link, h: nat) returns (a: Index)
    requires SubFork.Counted(l) && l.To? && h <= l.node.height
    ensures a in Branch(l) && a.height == h
  {
    if h == l.node.height {
      a := l.node;
    } else {
      a := AncestorAt(l.node.prev, h);
    }
  }
}
