/** The admission queue of the job server: `Scheduler` of crates/rbs-server/src/scheduler.rs.

    The class updates its fields in place as the source does; every method is tied to a function
    on `State` values. The lemmas then compare those functions with an unordered reference (pick
    the best entry of a set) and with the log of a whole run. */
module Scheduling {
  type JobId = nat

  datatype Priority = Interactive | Agent | Background

  function Rank(p: Priority): nat {
    match p
    case Interactive => 2
    case Agent => 1
    case Background => 0
  }

  /** Who goes first: interactive jobs before all others, background jobs after all others. */
  predicate Outranks(a: Priority, b: Priority) {
    (a == Interactive && b != Interactive) || (a == Agent && b == Background)
  }

  lemma RankIsOutranks(a: Priority, b: Priority)
    ensures Rank(a) > Rank(b) <==> Outranks(a, b)
    ensures Rank(a) == Rank(b) <==> a == b
  {
  }

  datatype Limits = Limits(maxJobs: nat, minMemAvailable: nat, queueLimit: nat)

  datatype Entry = Entry(id: JobId, priority: Priority, seqNo: nat)

  datatype Decision = Accept | Queue(position: nat) | Saturated

  datatype State = State(limits: Limits, running: nat, queue: seq<Entry>, seqNo: nat)

  function Start(limits: Limits): State {
    State(limits, 0, [], 0)
  }

  predicate HasCapacity(s: State, mem: nat) {
    s.running < s.limits.maxJobs && mem > s.limits.minMemAvailable
  }

  predicate Accepting(s: State, mem: nat) {
    s.queue == [] && HasCapacity(s, mem)
  }

  /** Index of the first entry of lower rank, or the length. */
  function InsertionPoint(q: seq<Entry>, p: Priority): (i: nat)
    ensures i <= |q|
    ensures forall k :: 0 <= k < i ==> Rank(q[k].priority) >= Rank(p)
    ensures i < |q| ==> Rank(q[i].priority) < Rank(p)
  {
    if q == [] || Rank(q[0].priority) < Rank(p) then 0 else 1 + InsertionPoint(q[1..], p)
  }

  lemma InsertionPointIs(q: seq<Entry>, p: Priority, i: nat)
    requires i <= |q| && (forall k :: 0 <= k < i ==> Rank(q[k].priority) >= Rank(p))
    requires i < |q| ==> Rank(q[i].priority) < Rank(p)
    ensures InsertionPoint(q, p) == i
  {
  }

  function Admit(s: State, id: JobId, p: Priority, mem: nat): (State, Decision) {
    if Accepting(s, mem) then
      (s.(running := s.running + 1), Accept)
    else if |s.queue| >= s.limits.queueLimit then
      (s, Saturated)
    else
      var i := InsertionPoint(s.queue, p);
      (Enqueued(s, i, Entry(id, p, s.seqNo + 1)), Queue(i + 1))
  }

  function Enqueued(s: State, i: nat, e: Entry): State
    requires i <= |s.queue|
  {
    s.(queue := s.queue[..i] + [e] + s.queue[i..], seqNo := e.seqNo)
  }

  /** How many queued jobs the free slots and the memory let start. */
  function Releasable(s: State, mem: nat): (k: nat)
    ensures k <= |s.queue|
    ensures k > 0 ==> HasCapacity(s.(running := s.running + k - 1), mem)
    ensures k < |s.queue| ==> !HasCapacity(s.(running := s.running + k), mem)
  {
    if !HasCapacity(s, mem) then 0
    else if |s.queue| <= s.limits.maxJobs - s.running then |s.queue|
    else s.limits.maxJobs - s.running
  }

  function Released(s: State, mem: nat): seq<Entry> {
    s.queue[..Releasable(s, mem)]
  }

  function Poll(s: State, mem: nat): State {
    var k := Releasable(s, mem);
    s.(running := s.running + k, queue := s.queue[k..])
  }

  /** `running.saturating_sub(1)`. */
  function FreeSlot(s: State): State {
    s.(running := if s.running == 0 then 0 else s.running - 1)
  }

  function Finish(s: State, mem: nat): State {
    Poll(FreeSlot(s), mem)
  }

  function Ids(q: seq<Entry>): (ids: seq<JobId>)
    ensures |ids| == |q|
    ensures forall i :: 0 <= i < |q| ==> ids[i] == q[i].id
  {
    seq(|q|, i requires 0 <= i < |q| => q[i].id)
  }

  /** Index of the entry of `id`, or the length. */
  function Find(q: seq<Entry>, id: JobId): (i: nat)
    ensures i <= |q|
    ensures forall k :: 0 <= k < i ==> q[k].id != id
    ensures i < |q| ==> q[i].id == id
  {
    if q == [] || q[0].id == id then 0 else 1 + Find(q[1..], id)
  }

  function RemoveQueued(s: State, id: JobId): (State, bool) {
    var i := Find(s.queue, id);
    if i < |s.queue| then (s.(queue := s.queue[..i] + s.queue[i + 1..]), true) else (s, false)
  }

  lemma AdmitQueues(s: State, id: JobId, p: Priority, mem: nat, i: nat, s': State)
    requires !Accepting(s, mem) && |s.queue| < s.limits.queueLimit && i == InsertionPoint(s.queue, p)
    requires s' == s.(queue := s.queue[..i] + [Entry(id, p, s.seqNo + 1)] + s.queue[i..], seqNo := s.seqNo + 1)
    ensures (s', Queue(i + 1)) == Admit(s, id, p, mem)
  {
  }

  function Min(a: nat, b: nat): nat {
    if a <= b then a else b
  }

  /** How many queued entries a newcomer does not outrank. */
  function Ahead(q: seq<Entry>, p: Priority): nat {
    if q == [] then 0 else (if Outranks(p, q[0].priority) then 0 else 1) + Ahead(q[1..], p)
  }

  lemma {:induction false} AheadOf(q: seq<Entry>, p: Priority, i: nat)
    requires i <= |q|
    requires forall k :: 0 <= k < |q| ==> (Outranks(p, q[k].priority) <==> i <= k)
    ensures Ahead(q, p) == i
  {
    if q != [] {
      AheadOf(q[1..], p, if i == 0 then 0 else i - 1);
    }
  }

  /** In an ordered queue the place of a newcomer is behind exactly those it does not outrank. */
  lemma AheadIsPlace(q: seq<Entry>, p: Priority, i: nat)
    requires Ordered(q) && i == InsertionPoint(q, p)
    ensures Ahead(q, p) == i
  {
    forall k | 0 <= k < |q| ensures Outranks(p, q[k].priority) <==> i <= k {
      RankIsOutranks(p, q[k].priority);
      if i < k {
        assert Before(q[i], q[k]);
      }
    }
    AheadOf(q, p, i);
  }

  /** `s` after the first `n` jobs of its queue were popped. */
  function Popped(s: State, n: nat): State
    requires n <= |s.queue|
  {
    s.(running := s.running + n, queue := s.queue[n..])
  }

  lemma PopOne(s: State, n: nat)
    requires n < |s.queue|
    ensures Popped(s, n).queue != [] && Popped(s, n).queue[0] == s.queue[n]
    ensures Popped(s, n + 1) == Popped(s, n).(running := s.running + n + 1, queue := Popped(s, n).queue[1..])
    ensures Ids(s.queue[..n + 1]) == Ids(s.queue[..n]) + [s.queue[n].id]
  {
  }

  lemma PollIs(s: State, n: nat, mem: nat)
    requires n <= |s.queue| && (n > 0 ==> HasCapacity(s.(running := s.running + n - 1), mem))
    requires n < |s.queue| ==> !HasCapacity(s.(running := s.running + n), mem)
    ensures n == Releasable(s, mem) && Popped(s, n) == Poll(s, mem)
  {
  }

  class Scheduler {
    const limits: Limits
    var running: nat
    var queue: seq<Entry>
    var seqNo: nat

    function View(): State
      reads this
    {
      State(limits, running, queue, seqNo)
    }

    constructor (limits: Limits)
      ensures View() == Start(limits)
    {
      this.limits := limits;
      running, queue, seqNo := 0, [], 0;
    }

    method AdmitJob(id: JobId, priority: Priority, mem: nat) returns (decision: Decision)
      modifies this
      ensures (View(), decision) == Admit(old(View()), id, priority, mem)
      ensures decision.Accept? <==> old(queue) == [] && old(running) < limits.maxJobs && mem > limits.minMemAvailable
      ensures decision.Accept? ==> running == old(running) + 1 && queue == old(queue)
      ensures decision.Saturated? ==> |old(queue)| >= limits.queueLimit && View() == old(View())
      ensures decision.Queue? ==> |old(queue)| < limits.queueLimit && running == old(running)
      ensures decision.Queue? && Ordered(old(queue)) ==> decision.position == 1 + Ahead(old(queue), priority)
      ensures decision.Queue? ==> 1 <= decision.position <= |queue| && queue[decision.position - 1].id == id
    {
      if queue == [] && running < limits.maxJobs && mem > limits.minMemAvailable {
        running := running + 1;
        return Accept;
      }
      if |queue| >= limits.queueLimit {
        return Saturated;
      }
      seqNo := seqNo + 1;
      var idx := PositionOfLower(priority);
      queue := queue[..idx] + [Entry(id, priority, seqNo)] + queue[idx..];
      decision := Queue(idx + 1);
      AdmitQueues(old(View()), id, priority, mem, idx, View());
      if Ordered(old(queue)) {
        AheadIsPlace(old(queue), priority, idx);
      }
    }

    /** `position(|q| q.priority.rank() < priority.rank()).unwrap_or(len)` */
    method PositionOfLower(priority: Priority) returns (idx: nat)
      ensures idx == InsertionPoint(queue, priority)
    {
      idx := 0;
      while idx < |queue| && Rank(queue[idx].priority) >= Rank(priority)
        invariant idx <= |queue|
        invariant forall k :: 0 <= k < idx ==> Rank(queue[k].priority) >= Rank(priority)
      {
        idx := idx + 1;
      }
      InsertionPointIs(queue, priority, idx);
    }

    method PollQueue(mem: nat) returns (released: seq<JobId>)
      modifies this
      ensures View() == Poll(old(View()), mem)
      ensures released == Ids(Released(old(View()), mem))
      ensures |released| == if mem <= limits.minMemAvailable || old(running) >= limits.maxJobs then 0
                            else Min(|old(queue)|, limits.maxJobs - old(running))
    {
      released := [];
      ghost var before := View();
      while queue != [] && running < limits.maxJobs && mem > limits.minMemAvailable
        invariant |released| <= |before.queue| && View() == Popped(before, |released|)
        invariant released == Ids(before.queue[..|released|])
        invariant released != [] ==> HasCapacity(before.(running := before.running + |released| - 1), mem)
        decreases |queue|
      {
        PopOne(before, |released|);
        released := released + [queue[0].id];
        queue := queue[1..];
        running := running + 1;
      }
      PollIs(before, |released|, mem);
    }

    method FinishJob(mem: nat) returns (released: seq<JobId>)
      modifies this
      ensures View() == Finish(old(View()), mem)
      ensures released == Ids(Released(FreeSlot(old(View())), mem))
    {
      running := if running == 0 then 0 else running - 1;
      released := PollQueue(mem);
    }

    method Remove(id: JobId) returns (found: bool)
      modifies this
      ensures (View(), found) == RemoveQueued(old(View()), id)
    {
      var i := Position(id);
      if i == 0 {
        return false;
      }
      queue := queue[..i - 1] + queue[i..];
      return true;
    }

    /** 1-based position, 0 when the job is not queued. */
    method Position(id: JobId) returns (position: nat)
      ensures position == 0 <==> Find(queue, id) == |queue|
      ensures position > 0 ==> position == Find(queue, id) + 1
      ensures position == 0 <==> id !in Ids(queue)
    {
      var i := 0;
      while i < |queue| && queue[i].id != id
        invariant i <= |queue|
        invariant forall k :: 0 <= k < i ==> queue[k].id != id
      {
        i := i + 1;
      }
      if i < |queue| {
        assert Ids(queue)[i] == id;
        return i + 1;
      }
      return 0;
    }
  }

  // ------------------------------------------------------------------------------------------
  // Order of the queue

  /** `a` is to start before `b`: higher rank, then earlier arrival. */
  predicate Before(a: Entry, b: Entry) {
    Rank(a.priority) > Rank(b.priority) ||
    (Rank(a.priority) == Rank(b.priority) && a.seqNo < b.seqNo)
  }

  ghost predicate Ordered(q: seq<Entry>) {
    forall i, j :: 0 <= i < j < |q| ==> Before(q[i], q[j])
  }

  ghost predicate Sound(s: State) {
    && Ordered(s.queue)
    && (forall i :: 0 <= i < |s.queue| ==> s.queue[i].seqNo <= s.seqNo)
    && |s.queue| <= s.limits.queueLimit
    && s.running <= s.limits.maxJobs
  }

  lemma AdmitSound(s: State, id: JobId, p: Priority, mem: nat)
    requires Sound(s)
    ensures Sound(Admit(s, id, p, mem).0)
  {
    var (s', d) := Admit(s, id, p, mem);
    match d
    case Accept => AcceptSound(s, s');
    case Queue(position) => EnqueueSound(s, s', position - 1, Entry(id, p, s.seqNo + 1));
    case Saturated =>
  }

  lemma AcceptSound(s: State, s': State)
    requires Sound(s) && s.running < s.limits.maxJobs && s' == s.(running := s.running + 1)
    ensures Sound(s')
  {
  }

  lemma EnqueueSound(s: State, s': State, i: nat, e: Entry)
    requires Sound(s) && |s.queue| < s.limits.queueLimit
    requires i == InsertionPoint(s.queue, e.priority) && e.seqNo == s.seqNo + 1 && s' == Enqueued(s, i, e)
    ensures Sound(s')
  {
    InsertOrdered(s.queue, i, e);
    InsertBounded(s.queue, i, e, s.seqNo + 1);
  }

  /** A newcomer goes behind its own rank and in front of the lower ones. */
  lemma InsertOrdered(q: seq<Entry>, i: nat, e: Entry)
    requires Ordered(q) && i == InsertionPoint(q, e.priority) && forall k :: 0 <= k < |q| ==> q[k].seqNo < e.seqNo
    ensures Ordered(q[..i] + [e] + q[i..])
  {
    SliceOrdered(q, i);
    NewcomerFits(q, i, e);
    OrderedBetween(q[..i], e, q[i..]);
  }

  lemma NewcomerFits(q: seq<Entry>, i: nat, e: Entry)
    requires Ordered(q) && i == InsertionPoint(q, e.priority) && forall k :: 0 <= k < |q| ==> q[k].seqNo < e.seqNo
    ensures AllBefore(q[..i], [e]) && AllBefore([e], q[i..])
  {
    forall k | i <= k < |q| ensures Before(e, q[k]) {
      assert k == i || Before(q[i], q[k]);
    }
  }

  ghost predicate AllBefore(a: seq<Entry>, b: seq<Entry>) {
    forall i, j :: 0 <= i < |a| && 0 <= j < |b| ==> Before(a[i], b[j])
  }

  lemma SliceOrdered(q: seq<Entry>, i: nat)
    requires Ordered(q) && i <= |q|
    ensures Ordered(q[..i]) && Ordered(q[i..]) && AllBefore(q[..i], q[i..])
  {
  }

  lemma OrderedBetween(a: seq<Entry>, e: Entry, b: seq<Entry>)
    requires Ordered(a) && Ordered(b) && AllBefore(a, b) && AllBefore(a, [e]) && AllBefore([e], b)
    ensures Ordered(a + [e] + b)
  {
    OrderedConcat(a, [e]);
    assert AllBefore(a + [e], b);
    OrderedConcat(a + [e], b);
  }

  lemma OrderedConcat(a: seq<Entry>, b: seq<Entry>)
    requires Ordered(a) && Ordered(b) && AllBefore(a, b)
    ensures Ordered(a + b)
  {
  }

  lemma InsertBounded(q: seq<Entry>, i: nat, e: Entry, bound: nat)
    requires i <= |q| && e.seqNo <= bound && forall k :: 0 <= k < |q| ==> q[k].seqNo <= bound
    ensures var q' := q[..i] + [e] + q[i..]; forall k :: 0 <= k < |q'| ==> q'[k].seqNo <= bound
  {
  }

  lemma PollSound(s: State, mem: nat)
    requires Sound(s)
    ensures Sound(Poll(s, mem))
  {
  }

  lemma RemoveSound(s: State, id: JobId)
    requires Sound(s)
    ensures Sound(RemoveQueued(s, id).0)
  {
  }

  // ------------------------------------------------------------------------------------------
  // The reference: an unordered set from which the best entry is picked again and again

  ghost function Pending(q: seq<Entry>): set<Entry> {
    set e | e in q
  }

  ghost predicate IsBest(pending: set<Entry>, e: Entry) {
    e in pending && forall f :: f in pending && f != e ==> Before(e, f)
  }

  ghost predicate PicksBest(pending: set<Entry>, picks: seq<Entry>) {
    picks == [] || (IsBest(pending, picks[0]) && PicksBest(pending - {picks[0]}, picks[1..]))
  }

  lemma {:induction false} PrefixPicksBest(q: seq<Entry>, k: nat)
    requires Ordered(q) && k <= |q|
    ensures PicksBest(Pending(q), q[..k])
    ensures Pending(q[k..]) == Pending(q) - Pending(q[..k])
  {
    if k > 0 {
      assert q[0] !in q[1..];
      assert Pending(q[1..]) == Pending(q) - {q[0]};
      PrefixPicksBest(q[1..], k - 1);
      assert q[1..][..k - 1] == q[..k][1..] && q[1..][k - 1..] == q[k..];
      assert q[..k] == [q[0]] + q[..k][1..];
    } else {
      assert q[k..] == q;
    }
  }

  /** A poll releases exactly what picking the best pending entry `Releasable` times gives. */
  lemma PollRefinesPickBest(s: State, mem: nat)
    requires Sound(s)
    ensures PicksBest(Pending(s.queue), Released(s, mem))
    ensures Pending(Poll(s, mem).queue) == Pending(s.queue) - Pending(Released(s, mem))
    ensures |Released(s, mem)| == |s.queue| || !HasCapacity(Poll(s, mem), mem)
  {
    PrefixPicksBest(s.queue, Releasable(s, mem));
  }

  /** Picking the best leaves no choice: the reference is a function. */
  lemma {:induction false} PickBestUnique(pending: set<Entry>, a: seq<Entry>, b: seq<Entry>)
    requires PicksBest(pending, a) && PicksBest(pending, b) && |a| == |b|
    ensures a == b
  {
    if a != [] {
      assert a[0] == b[0];
      PickBestUnique(pending - {a[0]}, a[1..], b[1..]);
      assert a == [a[0]] + a[1..] && b == [b[0]] + b[1..];
    }
  }

  // ------------------------------------------------------------------------------------------
  // Whole runs: a log of what happened to each job

  datatype Op =
    | OpAdmit(id: JobId, priority: Priority, mem: nat)
    | OpPoll(mem: nat)
    | OpFinish(mem: nat)
    | OpRemove(id: JobId)

  datatype Fact =
    | Arrived(entry: Entry)
    | Left(entry: Entry)
    | Withdrawn(entry: Entry)
    | Ran(id: JobId)

  function LeftAll(es: seq<Entry>): (facts: seq<Fact>)
    ensures |facts| == |es|
    ensures forall i :: 0 <= i < |es| ==> facts[i] == Left(es[i])
  {
    seq(|es|, i requires 0 <= i < |es| => Left(es[i]))
  }

  function Apply(s: State, op: Op): (State, seq<Fact>) {
    match op
    case OpAdmit(id, p, mem) =>
      var (s', d) := Admit(s, id, p, mem);
      (s', match d
           case Accept => [Ran(id)]
           case Queue(_) => [Arrived(Entry(id, p, s.seqNo + 1))]
           case Saturated => [])
    case OpPoll(mem) => (Poll(s, mem), LeftAll(Released(s, mem)))
    case OpFinish(mem) => (Finish(s, mem), LeftAll(Released(FreeSlot(s), mem)))
    case OpRemove(id) =>
      var (s', found) := RemoveQueued(s, id);
      (s', if found then [Withdrawn(s.queue[Find(s.queue, id)])] else [])
  }

  function Run(limits: Limits, ops: seq<Op>): (State, seq<Fact>) {
    if ops == [] then (Start(limits), [])
    else
      var (s, log) := Run(limits, ops[..|ops| - 1]);
      var (s', facts) := Apply(s, ops[|ops| - 1]);
      (s', log + facts)
  }

  ghost predicate Gone(log: seq<Fact>, e: Entry) {
    Left(e) in log || Withdrawn(e) in log
  }

  /** The queue is what has arrived and not gone; nothing overtook an entry due before it. */
  ghost predicate LogSound(s: State, log: seq<Fact>) {
    && (forall e :: e in s.queue <==> Arrived(e) in log && !Gone(log, e))
    && (forall e :: Arrived(e) in log ==> e.seqNo <= s.seqNo)
    && (forall e :: Gone(log, e) ==> Arrived(e) in log)
    && (forall i, e :: 0 <= i < |log| && Arrived(e) in log[..i] && Blocks(e, log[i]) ==> Gone(log[..i], e))
  }

  /** `e`, still queued, forbids `fact` to happen next. */
  predicate Blocks(e: Entry, fact: Fact) {
    (fact.Left? && Before(e, fact.entry)) || fact.Ran?
  }

  lemma ExtendLog(s: State, log: seq<Fact>, s': State, fact: Fact)
    requires LogSound(s, log)
    requires s.seqNo <= s'.seqNo
    requires forall e :: e in s'.queue <==> Arrived(e) in log + [fact] && !Gone(log + [fact], e)
    requires fact.Arrived? ==> fact.entry.seqNo <= s'.seqNo
    requires fact.Left? || fact.Withdrawn? ==> Arrived(fact.entry) in log
    requires forall e :: e in s.queue ==> !Blocks(e, fact)
    ensures LogSound(s', log + [fact])
  {
    var log' := log + [fact];
    forall i, e | 0 <= i < |log'| && Arrived(e) in log'[..i] && Blocks(e, log'[i])
      ensures Gone(log'[..i], e)
    {
      if i == |log| {
        assert log'[..i] == log;
      } else {
        assert log'[..i] == log[..i];
      }
    }
  }

  lemma {:induction false} ReleasesExtendLog(s: State, log: seq<Fact>, k: nat, running: nat)
    requires Sound(s) && LogSound(s, log) && k <= |s.queue|
    ensures LogSound(s.(queue := s.queue[k..], running := running), log + LeftAll(s.queue[..k]))
  {
    if k == 0 {
      assert s.queue[..k] == [] && log + LeftAll(s.queue[..k]) == log && s.queue[k..] == s.queue;
    } else {
      var mid := s.(queue := s.queue[k - 1..], running := running);
      ReleasesExtendLog(s, log, k - 1, running);
      var log1 := log + LeftAll(s.queue[..k - 1]);
      var fact := Left(s.queue[k - 1]);
      LeftOneMore(s.queue, k, log);
      FirstLeaves(mid, log1);
      assert mid.queue[1..] == s.queue[k..];
    }
  }

  lemma LeftOneMore(q: seq<Entry>, k: nat, log: seq<Fact>)
    requires 0 < k <= |q|
    ensures log + LeftAll(q[..k]) == log + LeftAll(q[..k - 1]) + [Left(q[k - 1])]
  {
    assert q[..k] == q[..k - 1] + [q[k - 1]];
    assert LeftAll(q[..k]) == LeftAll(q[..k - 1]) + [Left(q[k - 1])];
  }

  lemma FirstLeaves(s: State, log: seq<Fact>)
    requires Ordered(s.queue) && LogSound(s, log) && s.queue != []
    ensures LogSound(s.(queue := s.queue[1..]), log + [Left(s.queue[0])])
  {
    var first, rest := s.queue[0], s.queue[1..];
    assert s.queue == [first] + rest;
    forall e | e in rest ensures Before(first, e) {
      var k :| 0 <= k < |rest| && rest[k] == e;
      assert e == s.queue[k + 1];
    }
    ExtendLog(s, log, s.(queue := rest), Left(first));
  }

  lemma AdmitExtendsLog(s: State, log: seq<Fact>, id: JobId, p: Priority, mem: nat)
    requires Sound(s) && LogSound(s, log)
    ensures LogSound(Admit(s, id, p, mem).0, log + Apply(s, OpAdmit(id, p, mem)).1)
  {
    var (s', d) := Admit(s, id, p, mem);
    var facts := Apply(s, OpAdmit(id, p, mem)).1;
    if facts == [] {
      assert log + facts == log;
    } else {
      var fact := facts[0];
      assert facts == [fact];
      if d.Queue? {
        assert !Gone(log, fact.entry) && Arrived(fact.entry) !in log;
        EnqueuedMembers(s.queue, InsertionPoint(s.queue, p), fact.entry);
      }
      ExtendLog(s, log, s', fact);
    }
  }

  lemma EnqueuedMembers(q: seq<Entry>, i: nat, x: Entry)
    requires i <= |q|
    ensures forall e :: e in q[..i] + [x] + q[i..] <==> e in q || e == x
  {
    assert q == q[..i] + q[i..];
  }

  lemma RemoveExtendsLog(s: State, log: seq<Fact>, id: JobId)
    requires Sound(s) && LogSound(s, log)
    ensures LogSound(RemoveQueued(s, id).0, log + Apply(s, OpRemove(id)).1)
  {
    var s' := RemoveQueued(s, id).0;
    var facts := Apply(s, OpRemove(id)).1;
    var i := Find(s.queue, id);
    if i < |s.queue| {
      assert facts == [Withdrawn(s.queue[i])];
      OneLeaves(s, log, s', i);
    } else {
      assert log + facts == log;
    }
  }

  lemma OneLeaves(s: State, log: seq<Fact>, s': State, i: nat)
    requires Ordered(s.queue) && LogSound(s, log) && i < |s.queue|
    requires s' == s.(queue := s.queue[..i] + s.queue[i + 1..])
    ensures LogSound(s', log + [Withdrawn(s.queue[i])])
  {
    var gone := s.queue[i];
    assert s.queue == s.queue[..i] + [gone] + s.queue[i + 1..];
    assert gone in s.queue;
    NotTwice(s.queue, i);
    ExtendLog(s, log, s', Withdrawn(gone));
  }

  lemma NotTwice(q: seq<Entry>, i: nat)
    requires Ordered(q) && i < |q|
    ensures q[i] !in q[..i] + q[i + 1..]
  {
    forall k | 0 <= k < |q| && k != i ensures q[k] != q[i] {
      assert if k < i then Before(q[k], q[i]) else Before(q[i], q[k]);
    }
  }

  lemma ApplyKeepsSound(s: State, op: Op)
    requires Sound(s)
    ensures Sound(Apply(s, op).0)
  {
    match op
    case OpAdmit(id, p, mem) => AdmitSound(s, id, p, mem);
    case OpPoll(mem) => PollSound(s, mem);
    case OpFinish(mem) => PollSound(FreeSlot(s), mem);
    case OpRemove(id) => RemoveSound(s, id);
  }

  lemma ApplyKeepsLog(s: State, log: seq<Fact>, op: Op)
    requires Sound(s) && LogSound(s, log)
    ensures LogSound(Apply(s, op).0, log + Apply(s, op).1)
  {
    match op
    case OpAdmit(id, p, mem) =>
      AdmitExtendsLog(s, log, id, p, mem);
    case OpPoll(mem) =>
      var k := Releasable(s, mem);
      ReleasesExtendLog(s, log, k, s.running + k);
      assert Apply(s, op) == (s.(queue := s.queue[k..], running := s.running + k), LeftAll(s.queue[..k]));
    case OpFinish(mem) =>
      var k := Releasable(FreeSlot(s), mem);
      var running := FreeSlot(s).running + k;
      ReleasesExtendLog(s, log, k, running);
      assert Apply(s, op) == (s.(queue := s.queue[k..], running := running), LeftAll(s.queue[..k]));
    case OpRemove(id) =>
      RemoveExtendsLog(s, log, id);
  }

  lemma {:induction false} RunSound(limits: Limits, ops: seq<Op>)
    ensures var (s, log) := Run(limits, ops); s.limits == limits && Sound(s) && LogSound(s, log)
  {
    if ops != [] {
      var (s, log) := Run(limits, ops[..|ops| - 1]);
      RunSound(limits, ops[..|ops| - 1]);
      ApplyKeepsSound(s, ops[|ops| - 1]);
      ApplyKeepsLog(s, log, ops[|ops| - 1]);
    }
  }

  /** In every run, a job is released only after every job that arrived earlier with the same or a
      higher rank is gone, and runs at once only when every job that ever queued is gone. */
  lemma NoOvertaking(limits: Limits, ops: seq<Op>, i: nat, j: nat, k: nat, e: Entry, f: Entry)
    requires var log := Run(limits, ops).1;
             i < k < |log| && j < k && log[i] == Arrived(e) && log[j] == Arrived(f)
    ensures var log := Run(limits, ops).1;
            log[k] == Left(f) && (Outranks(e.priority, f.priority) || (e.priority == f.priority && i < j)) ==>
              Gone(log[..k], e)
    ensures var log := Run(limits, ops).1; log[k].Ran? ==> Gone(log[..k], e)
  {
    RunSound(limits, ops);
    var log := Run(limits, ops).1;
    assert Arrived(e) == log[..k][i];
    RankIsOutranks(e.priority, f.priority);
    if i < j {
      ArrivalsInOrder(limits, ops, i, j);
    }
  }

  /** With too little memory, or every slot taken, nothing starts: no newcomer and no queued job. */
  lemma NothingStartsWithoutCapacity(s: State, id: JobId, p: Priority, mem: nat)
    requires mem <= s.limits.minMemAvailable || s.running >= s.limits.maxJobs
    ensures !Admit(s, id, p, mem).1.Accept? && Admit(s, id, p, mem).0.running == s.running
    ensures Released(s, mem) == [] && Poll(s, mem) == s
  {
    assert s.queue[0..] == s.queue;
  }

  lemma {:induction false} ArrivalsInOrder(limits: Limits, ops: seq<Op>, i: nat, j: nat)
    requires var log := Run(limits, ops).1; i < j < |log| && log[i].Arrived? && log[j].Arrived?
    ensures var log := Run(limits, ops).1; log[i].entry.seqNo < log[j].entry.seqNo
  {
    var (s, log) := Run(limits, ops[..|ops| - 1]);
    RunSound(limits, ops[..|ops| - 1]);
    if j < |log| {
      ArrivalsInOrder(limits, ops[..|ops| - 1], i, j);
    } else {
      assert Run(limits, ops).1[j] == Apply(s, ops[|ops| - 1]).1[j - |log|];
      if i < |log| {
        assert log[i] in log;
      }
    }
  }

  // ------------------------------------------------------------------------------------------
  // Identifiers

  function Submitted(ops: seq<Op>): (ids: seq<JobId>)
  {
    if ops == [] then []
    else
      var op := ops[|ops| - 1];
      Submitted(ops[..|ops| - 1]) + (if op.OpAdmit? then [op.id] else [])
  }

  ghost predicate Distinct<T>(s: seq<T>) {
    forall i, j :: 0 <= i < j < |s| ==> s[i] != s[j]
  }

  ghost predicate DistinctIds(q: seq<Entry>) {
    forall i, j :: 0 <= i < j < |q| ==> q[i].id != q[j].id
  }

  ghost predicate IdsWithin(q: seq<Entry>, ids: set<JobId>) {
    forall i :: 0 <= i < |q| ==> q[i].id in ids
  }

  lemma AdmitKeepsIdsDistinct(s: State, id: JobId, p: Priority, mem: nat, ids: set<JobId>)
    requires DistinctIds(s.queue) && IdsWithin(s.queue, ids) && id !in ids
    ensures var q := Admit(s, id, p, mem).0.queue; DistinctIds(q) && IdsWithin(q, ids + {id})
  {
    var (s', d) := Admit(s, id, p, mem);
    if d.Queue? {
      InsertDistinct(s.queue, d.position - 1, Entry(id, p, s.seqNo + 1), ids, s'.queue);
    }
  }

  lemma InsertDistinct(q: seq<Entry>, i: nat, e: Entry, ids: set<JobId>, q': seq<Entry>)
    requires DistinctIds(q) && IdsWithin(q, ids) && e.id !in ids && i <= |q| && q' == q[..i] + [e] + q[i..]
    ensures DistinctIds(q') && IdsWithin(q', ids + {e.id})
  {
    assert forall k :: 0 <= k < |q'| ==> q'[k] == if k < i then q[k] else if k == i then e else q[k - 1];
    assert forall k :: 0 <= k < |q| ==> q[k].id != e.id;
  }

  lemma OpKeepsIdsDistinct(s: State, op: Op, ids: set<JobId>)
    requires DistinctIds(s.queue) && IdsWithin(s.queue, ids) && !op.OpAdmit?
    ensures var q := Apply(s, op).0.queue; DistinctIds(q) && IdsWithin(q, ids)
  {
    match op
    case OpPoll(mem) => RestDistinct(s.queue, Releasable(s, mem), ids);
    case OpFinish(mem) => RestDistinct(s.queue, Releasable(FreeSlot(s), mem), ids);
    case OpRemove(id) =>
      if Find(s.queue, id) < |s.queue| {
        RemovedDistinct(s.queue, Find(s.queue, id), ids);
      }
  }

  lemma RestDistinct(q: seq<Entry>, k: nat, ids: set<JobId>)
    requires DistinctIds(q) && IdsWithin(q, ids) && k <= |q|
    ensures DistinctIds(q[k..]) && IdsWithin(q[k..], ids)
  {
  }

  lemma RemovedDistinct(q: seq<Entry>, i: nat, ids: set<JobId>)
    requires DistinctIds(q) && IdsWithin(q, ids) && i < |q|
    ensures DistinctIds(q[..i] + q[i + 1..]) && IdsWithin(q[..i] + q[i + 1..], ids)
  {
    var r := q[..i] + q[i + 1..];
    assert forall k :: 0 <= k < |r| ==> r[k] == q[if k < i then k else k + 1];
  }

  ghost function IdSet(ids: seq<JobId>): set<JobId> {
    set id | id in ids
  }

  /** Jobs submitted under distinct ids are queued under distinct ids. */
  lemma {:induction false} QueuedIdsDistinct(limits: Limits, ops: seq<Op>)
    requires Distinct(Submitted(ops))
    ensures var q := Run(limits, ops).0.queue; DistinctIds(q) && IdsWithin(q, IdSet(Submitted(ops)))
  {
    if ops != [] {
      var before := ops[..|ops| - 1];
      var op := ops[|ops| - 1];
      var s := Run(limits, before).0;
      var given := Submitted(before);
      assert forall i :: 0 <= i < |given| ==> Submitted(ops)[i] == given[i];
      QueuedIdsDistinct(limits, before);
      if op.OpAdmit? {
        assert op.id == Submitted(ops)[|given|] && op.id !in given;
        AdmitKeepsIdsDistinct(s, op.id, op.priority, op.mem, IdSet(given));
      } else {
        OpKeepsIdsDistinct(s, op, IdSet(given));
      }
    }
  }
}
