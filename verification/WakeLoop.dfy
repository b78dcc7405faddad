/** `wake`, `job_finished` and `poll` of crates/rbs-server/src/socket.rs, run without interference:
    the loop ends, hands every popped job to its waiter or gives its slot back, and leaves no slot
    idle that the queue could use. The interleaved protocol is in SlotProtocol. */
module WakeLoop {
  import opened Scheduling

  /** The waiter of a queued job; the value says whether its receiver still exists. */
  type Waiters = map<JobId, bool>

  predicate HasWaiter(w: Waiters, id: JobId) {
    id in w && w[id]
  }

  function Without(w: Waiters, ids: seq<JobId>): Waiters {
    map id | id in w && id !in ids :: w[id]
  }

  /** The ids of `ids` whose waiter takes the release. */
  function Woken(ids: seq<JobId>, w: Waiters): seq<JobId> {
    if ids == [] then []
    else Woken(ids[..|ids| - 1], w) + (if HasWaiter(w, ids[|ids| - 1]) then [ids[|ids| - 1]] else [])
  }

  function Orphaned(ids: seq<JobId>, w: Waiters): seq<JobId> {
    if ids == [] then []
    else Orphaned(ids[..|ids| - 1], w) + (if HasWaiter(w, ids[|ids| - 1]) then [] else [ids[|ids| - 1]])
  }

  ghost predicate SameOn(ids: seq<JobId>, w: Waiters, w': Waiters) {
    forall i :: 0 <= i < |ids| ==> (HasWaiter(w, ids[i]) <==> HasWaiter(w', ids[i]))
  }

  lemma {:induction false} SameWoken(ids: seq<JobId>, w: Waiters, w': Waiters)
    requires SameOn(ids, w, w')
    ensures Woken(ids, w) == Woken(ids, w') && Orphaned(ids, w) == Orphaned(ids, w')
  {
    if ids != [] {
      SameWoken(ids[..|ids| - 1], w, w');
    }
  }

  lemma {:induction false} WokenConcat(a: seq<JobId>, b: seq<JobId>, w: Waiters)
    ensures Woken(a + b, w) == Woken(a, w) + Woken(b, w)
    ensures Orphaned(a + b, w) == Orphaned(a, w) + Orphaned(b, w)
    ensures |Woken(b, w)| + |Orphaned(b, w)| == |b|
  {
    if b == [] {
      assert a + b == a;
    } else {
      var c, x := b[..|b| - 1], b[|b| - 1];
      WokenConcat(a, c, w);
      assert (a + b)[..|a + b| - 1] == a + c && (a + b)[|a + b| - 1] == x;
      assert Woken(a + b, w) == Woken(a + c, w) + (if HasWaiter(w, x) then [x] else []);
      assert Orphaned(a + b, w) == Orphaned(a + c, w) + (if HasWaiter(w, x) then [] else [x]);
    }
  }

  /** A released job is woken if its waiter is registered and still listening, and orphaned otherwise. */
  lemma {:induction false} WokenExactly(ids: seq<JobId>, w: Waiters, id: JobId)
    ensures id in Woken(ids, w) <==> id in ids && id in w && w[id]
    ensures id in Orphaned(ids, w) <==> id in ids && !(id in w && w[id])
    ensures |Woken(ids, w)| + |Orphaned(ids, w)| == |ids|
  {
    if ids != [] {
      WokenExactly(ids[..|ids| - 1], w, id);
      assert ids == ids[..|ids| - 1] + [ids[|ids| - 1]];
    }
  }

  lemma OrphanedExactly(ids: seq<JobId>, w: Waiters)
    ensures forall id :: id in Orphaned(ids, w) <==> id in ids && !(id in w && w[id])
  {
    forall id ensures id in Orphaned(ids, w) <==> id in ids && !(id in w && w[id]) {
      WokenExactly(ids, w, id);
    }
  }

  ghost predicate NoIdleSlot(s: State, mem: nat) {
    s.queue == [] || !HasCapacity(s, mem)
  }

  /** Jobs in hand followed by jobs still queued: no id twice. */
  ghost predicate AllDistinct(released: seq<JobId>, q: seq<Entry>) {
    Distinct(released + Ids(q))
  }

  lemma IdsSplit(q: seq<Entry>, k: nat)
    requires k <= |q|
    ensures Ids(q) == Ids(q[..k]) + Ids(q[k..])
  {
  }

  /** What one run of `wake` does, given how many jobs it popped. */
  ghost predicate WakeDid(released: seq<JobId>, s: State, w: Waiters, sent: seq<JobId>,
                          s': State, w': Waiters, sent': seq<JobId>, k: nat) {
    && k <= |s.queue|
    && (var popped := released + Ids(s.queue[..k]);
        && s' == s.(queue := s.queue[k..], running := s'.running)
        && sent' == sent + Woken(popped, w)
        && s'.running == s.running + k - |Orphaned(popped, w)|
        && w' == Without(w, popped))
  }

  class Shared {
    const scheduler: Scheduler
    var waiters: Waiters
    var sent: seq<JobId>

    constructor (limits: Limits)
      ensures scheduler.View() == Start(limits) && waiters == map[] && sent == []
      ensures fresh(scheduler)
    {
      scheduler := new Scheduler(limits);
      waiters, sent := map[], [];
    }

    /** The part of a round under the waiters lock. */
    method Deliver(released: seq<JobId>) returns (orphaned: seq<JobId>)
      requires Distinct(released)
      modifies this
      ensures orphaned == Orphaned(released, old(waiters))
      ensures sent == old(sent) + Woken(released, old(waiters))
      ensures waiters == Without(old(waiters), released)
      ensures forall id :: id in orphaned <==> id in released && !(id in old(waiters) && old(waiters)[id])
    {
      orphaned := [];
      var i := 0;
      while i < |released|
        invariant i <= |released|
        invariant orphaned == Orphaned(released[..i], old(waiters))
        invariant sent == old(sent) + Woken(released[..i], old(waiters))
        invariant waiters == map id | id in old(waiters) && id !in released[..i] :: old(waiters)[id]
      {
        var id := released[i];
        assert released[..i + 1] == released[..i] + [id];
        assert id !in released[..i];
        if id in waiters && waiters[id] {
          sent := sent + [id];
        } else {
          orphaned := orphaned + [id];
        }
        waiters := waiters - {id};
        i := i + 1;
      }
      assert released[..i] == released;
      OrphanedExactly(released, old(waiters));
    }

    /** The part of a round that gives the orphans' slots back, one lock acquisition each. */
    method Refund(orphans: seq<JobId>, mem: nat) returns (released: seq<JobId>)
      requires |orphans| <= scheduler.running
      requires NoIdleSlot(scheduler.View(), mem)
      modifies scheduler
      ensures |released| <= |old(scheduler.queue)|
      ensures released == Ids(old(scheduler.queue)[..|released|])
      ensures scheduler.View() == old(scheduler.View()).(queue := old(scheduler.queue)[|released|..],
                                                         running := old(scheduler.running) - |orphans| + |released|)
      ensures NoIdleSlot(scheduler.View(), mem)
    {
      released := [];
      ghost var s := scheduler.View();
      var i := 0;
      while i < |orphans|
        invariant i <= |orphans|
        invariant |released| <= |s.queue| && released == Ids(s.queue[..|released|])
        invariant scheduler.View() == s.(queue := s.queue[|released|..], running := s.running - i + |released|)
        invariant NoIdleSlot(scheduler.View(), mem)
      {
        ghost var before := |released|;
        var more := scheduler.FinishJob(mem);
        PoppedMore(s.queue, before, |more|);
        released := released + more;
        i := i + 1;
      }
    }

    /** One round: deliver, then refund the orphans. `first`, `s`, `w`, `sent0`, `done` and `k` say how the loop got
        here. */
    method Round(released: seq<JobId>, mem: nat, ghost first: seq<JobId>, ghost s: State, ghost w: Waiters,
                 ghost sent0: seq<JobId>, ghost done: seq<JobId>, ghost k: nat) returns (more: seq<JobId>)
      requires AllDistinct(first, s.queue) &&
          Rounds(first, s, w, sent0, done, released, scheduler.View(), waiters, sent, k)
      requires |released| <= scheduler.running && NoIdleSlot(scheduler.View(), mem)
      modifies this, scheduler
      ensures Rounds(first, s, w, sent0, done + released, more, scheduler.View(), waiters, sent, k + |more|)
      ensures |more| <= scheduler.running && NoIdleSlot(scheduler.View(), mem)
      ensures |scheduler.queue| + |more| == |old(scheduler.queue)|
    {
      BeforeRound(first, s, w, sent0, done, released, scheduler.View(), waiters, sent, k);
      ghost var s1, w1, sent1 := scheduler.View(), waiters, sent;
      var orphaned := Deliver(released);
      more := Refund(orphaned, mem);
      AfterRound(first, s, w, sent0, done, released, s1, w1, sent1, k, more, scheduler.View(), waiters, sent);
    }

    method Wake(first: seq<JobId>, mem: nat)
      requires |first| <= scheduler.running && AllDistinct(first, scheduler.queue)
      requires NoIdleSlot(scheduler.View(), mem)
      modifies this, scheduler
      ensures NoIdleSlot(scheduler.View(), mem)
      ensures exists k :: WakeDid(first, old(scheduler.View()), old(waiters), old(sent), scheduler.View(), waiters,
          sent, k)
    {
      var released := first;
      ghost var s, w := scheduler.View(), waiters;
      ghost var k: nat := 0;
      ghost var done: seq<JobId> := [];
      RoundsStart(first, s, w, sent);
      while released != []
        invariant Rounds(first, s, w, old(sent), done, released, scheduler.View(), waiters, sent, k)
        invariant |released| <= scheduler.running
        invariant NoIdleSlot(scheduler.View(), mem)
        decreases |scheduler.queue| + |released|
      {
        ghost var woken := released;
        released := Round(released, mem, first, s, w, old(sent), done, k);
        done, k := done + woken, k + |released|;
      }
      RoundsEnd(first, s, w, old(sent), done, scheduler.View(), waiters, sent, k);
    }

    /** A running job ended. */
    method JobFinished(mem: nat)
      requires AllDistinct([], scheduler.queue)
      modifies this, scheduler
      ensures NoIdleSlot(scheduler.View(), mem)
      ensures exists k :: WakeDid([], FreeSlot(old(scheduler.View())), old(waiters), old(sent),
                                  scheduler.View(), waiters, sent, k)
    {
      ghost var s := FreeSlot(scheduler.View());
      var released := scheduler.FinishJob(mem);
      TakenDistinct(s.queue, |released|);
      label popped:
      Wake(released, mem);
      ghost var k :| WakeDid(released, old@popped(scheduler.View()), old(waiters), old(sent), scheduler.View(),
          waiters, sent, k);
      PoppedFirst(s, |released|, old@popped(scheduler.View()), old(waiters), old(sent), scheduler.View(), waiters,
          sent, k);
    }

    /** The periodic re-evaluation. */
    method Poll(mem: nat)
      requires AllDistinct([], scheduler.queue)
      modifies this, scheduler
      ensures NoIdleSlot(scheduler.View(), mem)
      ensures exists k :: WakeDid([], old(scheduler.View()), old(waiters), old(sent), scheduler.View(), waiters,
          sent, k)
    {
      ghost var s := scheduler.View();
      var released := scheduler.PollQueue(mem);
      TakenDistinct(s.queue, |released|);
      label popped:
      Wake(released, mem);
      ghost var k :| WakeDid(released, old@popped(scheduler.View()), old(waiters), old(sent), scheduler.View(),
          waiters, sent, k);
      PoppedFirst(s, |released|, old@popped(scheduler.View()), old(waiters), old(sent), scheduler.View(), waiters,
          sent, k);
    }
  }

  /** Popping before the loop is as good as popping inside it. */
  lemma PoppedFirst(s: State, n: nat, s1: State, w: Waiters, sent: seq<JobId>, s': State, w': Waiters,
                    sent': seq<JobId>, k: nat)
    requires n <= |s.queue| && s1 == s.(queue := s.queue[n..], running := s.running + n)
    requires WakeDid(Ids(s.queue[..n]), s1, w, sent, s', w', sent', k)
    ensures WakeDid([], s, w, sent, s', w', sent', n + k)
  {
    assert s.queue[..n] + s.queue[n..][..k] == s.queue[..n + k];
    assert Ids(s.queue[..n]) + Ids(s.queue[n..][..k]) == [] + Ids(s.queue[..n + k]);
    assert s.queue[n..][k..] == s.queue[n + k..];
  }

  /** Where the loop stands: `done` is dealt with, `released` is in hand, `k` jobs were popped. */
  ghost predicate Rounds(first: seq<JobId>, s: State, w: Waiters, sent: seq<JobId>, done: seq<JobId>,
                         released: seq<JobId>,
                         s': State, w': Waiters, sent': seq<JobId>, k: nat) {
    && k <= |s.queue| && done + released == first + Ids(s.queue[..k])
    && s' == s.(queue := s.queue[k..], running := s'.running)
    && s'.running == s.running + k - |Orphaned(done, w)|
    && sent' == sent + Woken(done, w)
    && w' == Without(w, done)
  }

  lemma RoundsStart(first: seq<JobId>, s: State, w: Waiters, sent: seq<JobId>)
    ensures Rounds(first, s, w, sent, [], first, s, w, sent, 0)
  {
    assert s.queue[..0] == [] && first + Ids(s.queue[..0]) == [] + first;
  }

  lemma RoundsEnd(first: seq<JobId>, s: State, w: Waiters, sent: seq<JobId>, done: seq<JobId>,
                  s': State, w': Waiters, sent': seq<JobId>, k: nat)
    requires Rounds(first, s, w, sent, done, [], s', w', sent', k)
    ensures WakeDid(first, s, w, sent, s', w', sent', k)
  {
    assert done + [] == done;
  }

  lemma BeforeRound(first: seq<JobId>, s: State, w: Waiters, sent: seq<JobId>, done: seq<JobId>, released: seq<JobId>,
                    s': State, w': Waiters, sent': seq<JobId>, k: nat)
    requires AllDistinct(first, s.queue) && Rounds(first, s, w, sent, done, released, s', w', sent', k)
    ensures Distinct(released)
    ensures Orphaned(released, w') == Orphaned(released, w) && Woken(released, w') == Woken(released, w)
    ensures |Orphaned(released, w)| <= |released|
  {
    PartsDistinct(first, s.queue, k, done, released);
    SameWoken(released, w', w);
    WokenConcat([], released, w);
  }

  lemma AfterRound(first: seq<JobId>, s: State, w: Waiters, sent: seq<JobId>, done: seq<JobId>, released: seq<JobId>,
                   s1: State, w1: Waiters, sent1: seq<JobId>, k: nat, more: seq<JobId>, s': State, w': Waiters,
                       sent': seq<JobId>)
    requires Rounds(first, s, w, sent, done, released, s1, w1, sent1, k)
    requires |more| <= |s1.queue| && more == Ids(s1.queue[..|more|])
    requires |Orphaned(released, w)| <= s1.running
    requires s' == s1.(queue := s1.queue[|more|..], running := s1.running - |Orphaned(released, w)| + |more|)
    requires sent' == sent1 + Woken(released, w)
    requires w' == Without(w1, released)
    ensures Rounds(first, s, w, sent, done + released, more, s', w', sent', k + |more|)
  {
    WokenConcat(done, released, w);
    PoppedMore(s.queue, k, |more|);
    Regroup(done, released, more, first, Ids(s.queue[..k]));
    RemovedTwice(w, done, released);
    Regroup(sent, Woken(done, w), Woken(released, w), sent, Woken(done, w));
  }

  lemma Regroup(a: seq<JobId>, b: seq<JobId>, c: seq<JobId>, d: seq<JobId>, e: seq<JobId>)
    requires a + b == d + e
    ensures a + b + c == d + (e + c)
  {
    assert (d + e) + c == d + (e + c);
  }

  lemma RemovedTwice(w: Waiters, a: seq<JobId>, b: seq<JobId>)
    ensures Without(Without(w, a), b) == Without(w, a + b)
  {
  }

  lemma PoppedMore(q: seq<Entry>, k: nat, n: nat)
    requires k + n <= |q|
    ensures q[k..][n..] == q[k + n..]
    ensures Ids(q[..k]) + Ids(q[k..][..n]) == Ids(q[..k + n])
  {
    assert q[..k] + q[k..][..n] == q[..k + n];
  }

  lemma TakenDistinct(q: seq<Entry>, k: nat)
    requires AllDistinct([], q) && k <= |q|
    ensures AllDistinct(Ids(q[..k]), q[k..])
  {
    IdsSplit(q, k);
    assert [] + Ids(q) == Ids(q);
  }

  lemma PartsDistinct(first: seq<JobId>, q: seq<Entry>, k: nat, done: seq<JobId>, released: seq<JobId>)
    requires AllDistinct(first, q) && k <= |q| && done + released == first + Ids(q[..k])
    ensures Distinct(released) && forall i :: 0 <= i < |released| ==> released[i] !in done
  {
    IdsSplit(q, k);
    var all := first + Ids(q);
    assert forall i :: 0 <= i < |done + released| ==> (done + released)[i] == all[i];
    forall i, j | 0 <= i < j < |released| ensures released[i] != released[j] {
      assert released[i] == all[|done| + i] && released[j] == all[|done| + j];
    }
    forall i, j | 0 <= i < |released| && 0 <= j < |done| ensures released[i] != done[j] {
      assert released[i] == all[|done| + i] && done[j] == all[j];
    }
  }

  /** The outcome of a run of `wake`, told without the loop: behind `first` it popped the first `k` of the queue;
      exactly those with a listening waiter were sent their release, the slots of the others are free again, no waiter
      of a popped job is left, and no slot is idle while memory allows and somebody queues. */
  lemma WakeOutcome(first: seq<JobId>, s: State, w: Waiters, sent: seq<JobId>, s': State, w': Waiters,
                    sent': seq<JobId>, k: nat, mem: nat, id: JobId)
    requires WakeDid(first, s, w, sent, s', w', sent', k) && NoIdleSlot(s', mem)
    ensures sent <= sent' && k <= |s.queue|
    ensures var popped := first + Ids(s.queue[..k]);
      && (id in sent'[|sent|..] <==> id in popped && id in w && w[id])
      && (id in w' <==> id in w && id !in popped)
    ensures s'.running - s.running == |sent'| - |sent| - |first|
    ensures s'.queue == s.queue[k..]
    ensures s'.queue == [] || s'.running >= s'.limits.maxJobs || mem <= s'.limits.minMemAvailable
  {
    WokenExactly(first + Ids(s.queue[..k]), w, id);
  }
}
