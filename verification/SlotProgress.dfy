/** A pending release can always be brought about: from every reachable state in which a waiting connection has a
    release to come, some continuation hands it over. */
module SlotProgress {
  import opened Options
  import S = Scheduling
  import opened SlotProtocol
  import opened SlotSafety
  import opened SlotTheorems
  import opened SlotWaiting

  // ------------------------------------------------------------------------------------------
  // Continuations

  ghost predicate IsPath(path: seq<State>) {
    path != [] && forall i: nat :: i + 1 < |path| ==> StepAt(path, i)
  }

  /** Some sequence of steps leads from one state to the other. */
  ghost predicate Leads(st: State, st': State) {
    exists path :: IsPath(path) && path[0] == st && path[|path| - 1] == st'
  }

  lemma LeadsNowhere(st: State)
    ensures Leads(st, st)
  {
    assert IsPath([st]);
  }

  lemma JoinPaths(p: seq<State>, q: seq<State>)
    requires IsPath(p) && IsPath(q) && p[|p| - 1] == q[0]
    ensures IsPath(p + q[1..])
  {
    var r := p + q[1..];
    forall i: nat | i + 1 < |r| ensures StepAt(r, i) {
      if i + 1 < |p| {
        assert StepAt(p, i);
      } else {
        assert StepAt(q, i + 1 - |p|);
        assert r[i] == q[i + 1 - |p|] && r[i + 1] == q[i + 2 - |p|];
      }
    }
  }

  lemma LeadsOn(st: State, st1: State, st2: State)
    requires Leads(st, st1) && Leads(st1, st2)
    ensures Leads(st, st2)
  {
    var p :| IsPath(p) && p[0] == st && p[|p| - 1] == st1;
    var q :| IsPath(q) && q[0] == st1 && q[|q| - 1] == st2;
    JoinPaths(p, q);
    var r := p + q[1..];
    assert r[0] == st && r[|r| - 1] == st2;
  }

  lemma LeadsByStep(st: State, a: Action)
    requires Enabled(st, a)
    ensures Leads(st, Next(st, a))
  {
    var path := [st, Next(st, a)];
    assert StepAt(path, 0);
    assert IsPath(path);
  }

  // ------------------------------------------------------------------------------------------
  // Steps that leave the waiting connection alone

  ghost predicate Coming(limits: S.Limits, st: State, id: JobId) {
    Reachable(limits, st) && Parked(st, id) && ReleaseComing(st, id)
  }

  lemma Go(limits: S.Limits, st: State, a: Action, id: JobId)
    requires Coming(limits, st, id) && Enabled(st, a) && !(a.Local? && a.id == id)
    ensures Coming(limits, Next(st, a), id) && Leads(st, Next(st, a))
  {
    ReachableNext(limits, st, a);
    LeadsByStep(st, a);
    ReachableTracked(limits, st);
    StillParked(st, a, id);
    assert Steps(st, Next(st, a));
    StepsKeepFate(st, Next(st, a), id);
  }

  lemma StillParked(st: State, a: Action, id: JobId)
    requires Tracked(st) && Parked(st, id) && Enabled(st, a) && !(a.Local? && a.id == id)
    ensures Parked(Next(st, a), id)
  {
    NextIdIsNew(st);
    StepMovesJob(st, a, id);
  }

  lemma NextIdIsNew(st: State)
    requires Tracked(st)
    ensures st.nextId !in st.jobs
  {
    var slot :| Tracks(st, slot);
    assert KeysFit(st.jobs, QueuedIds(st.sched), st.waiters, st.nextId);
  }

  function Plenty(st: State): nat {
    st.sched.limits.minMemAvailable + 1
  }

  /** Where there is capacity, a poll shortens the queue. */
  lemma PollPops(sched: S.State, mem: nat)
    requires sched.queue != [] && S.HasCapacity(sched, mem)
    ensures |S.Poll(sched, mem).queue| < |sched.queue|
  {
  }

  lemma PollOnlyPops(sched: S.State, mem: nat)
    ensures var sched' := S.Poll(sched, mem);
      |sched'.queue| < |sched.queue| || sched' == sched
  {
    var k := S.Releasable(sched, mem);
    assert k == 0 ==> sched.queue[k..] == sched.queue;
  }

  // ------------------------------------------------------------------------------------------
  // A slot in the hands of one job

  ghost predicate InHand(j: Job) {
    j.phase.Starting? || j.phase.Returning? || j.mail.Sent? || j.supervisor.Supervising? || j.supervisor.Ended?
  }

  /** Steps until the job's slot is given back. */
  function Distance(j: Job): nat {
    if j.supervisor.Ended? then 1
    else if j.supervisor.Supervising? then 2
    else match j.phase
      case Returning(_) => 1
      case Starting => 2
      case Waiting => 3
      case Announcing => 4
      case Probing(_, _) => 2
      case Unregistering(_, _) => 3
      case Removing(_) => 4
      case _ => 0
  }

  /** The next step on that way. */
  function Towards(j: Job, h: JobId, mem: nat): Action {
    if j.supervisor.Ended? then SuperviseFinish(h, mem)
    else if j.supervisor.Supervising? then Local(h, SuperviseCrash)
    else match j.phase
      case Returning(_) => Return(h, mem)
      case Starting => Local(h, Launch(false))
      case Waiting => Local(h, Receive)
      case Announcing => Local(h, Announce(true))
      case Probing(_, _) => Local(h, Probe)
      case Unregistering(_, _) => Unregister(h)
      case _ => Remove(h)
  }

  lemma TowardsEnabled(st: State, h: JobId, mem: nat, queued: bool, waits: bool, place: Option<Place>)
    requires h in st.jobs && Fits(st.jobs[h], queued, waits, place) && InHand(st.jobs[h])
    ensures Enabled(st, Towards(st.jobs[h], h, mem)) && Distance(st.jobs[h]) >= 1
    ensures Distance(st.jobs[h]) == 1 <==> Towards(st.jobs[h], h, mem) in {SuperviseFinish(h, mem), Return(h, mem)}
  {
  }

  lemma TowardsCloser(st: State, h: JobId, mem: nat, place: Option<Place>)
    requires h in st.jobs && Fits(st.jobs[h], h in QueuedIds(st.sched), h in st.waiters, place) && InHand(st.jobs[h])
    requires Distance(st.jobs[h]) > 1 && Enabled(st, Towards(st.jobs[h], h, mem))
    ensures var j := JobAfter(st, Towards(st.jobs[h], h, mem), h); InHand(j) && Distance(j) < Distance(st.jobs[h])
  {
  }

  lemma NotQueuedNotFound(sched: S.State, id: JobId)
    requires id !in QueuedIds(sched)
    ensures S.RemoveQueued(sched, id) == (sched, false)
  {
    FoundIsQueued(sched, id);
  }

  lemma FoundIsQueued(sched: S.State, id: JobId)
    ensures S.Find(sched.queue, id) < |sched.queue| ==> id in QueuedIds(sched)
  {
    var i := S.Find(sched.queue, id);
    if i < |sched.queue| {
      assert sched.queue[i] in sched.queue;
    }
  }

  lemma TowardsKeeps(st: State, h: JobId, mem: nat, place: Option<Place>)
    requires h in st.jobs && Fits(st.jobs[h], h in QueuedIds(st.sched), h in st.waiters, place) && place.Some?
    requires Distance(st.jobs[h]) > 1 && Enabled(st, Towards(st.jobs[h], h, mem))
    ensures var st' := Next(st, Towards(st.jobs[h], h, mem)); st'.sched == st.sched && st'.frames == st.frames
  {
    NotQueuedNotFound(st.sched, h);
  }

  // ------------------------------------------------------------------------------------------
  // Some job leaves the queue

  /** The queue got shorter. */
  ghost predicate Shorter(st: State, st': State) {
    |st'.sched.queue| < |st.sched.queue|
  }

  lemma FinishSched(st: State, a: Action)
    requires Enabled(st, a) && (a.Return? || a.SuperviseFinish?)
    ensures Next(st, a).sched == S.Poll(S.FreeSlot(st.sched), a.mem)
  {
  }

  lemma FinishPops(st: State, a: Action)
    requires Enabled(st, a) && (a.Return? || a.SuperviseFinish?) && a.mem == Plenty(st)
    requires st.sched.queue != [] && 0 < st.sched.running <= st.sched.limits.maxJobs
    ensures Shorter(st, Next(st, a))
  {
    FinishSched(st, a);
    PollPops(S.FreeSlot(st.sched), a.mem);
  }

  lemma OneStepCloser(limits: S.Limits, st: State, id: JobId, h: JobId) returns (st': State)
    requires Coming(limits, st, id) && h in st.jobs && h != id && InHand(st.jobs[h]) && Distance(st.jobs[h]) > 1
    ensures Coming(limits, st', id) && Leads(st, st') && st'.sched == st.sched
    ensures h in st'.jobs && InHand(st'.jobs[h]) && Distance(st'.jobs[h]) < Distance(st.jobs[h])
  {
    var place := ReachableFits(limits, st, h);
    var a := Towards(st.jobs[h], h, 0);
    TowardsEnabled(st, h, 0, h in QueuedIds(st.sched), h in st.waiters, place);
    TowardsCloser(st, h, 0, place);
    TowardsKeeps(st, h, 0, place);
    ReachableTracked(limits, st);
    NextIdIsNew(st);
    StepAfter(st, a, h);
    Go(limits, st, a, id);
    st' := Next(st, a);
  }

  /** A job that has a slot in hand can be brought to give it back, which lets another one start. */
  lemma GiveBack(limits: S.Limits, st: State, id: JobId, h: JobId) returns (st': State)
    requires Coming(limits, st, id) && h in st.jobs && h != id && InHand(st.jobs[h])
    requires st.sched.queue != [] && 0 < st.sched.running <= st.sched.limits.maxJobs
    ensures Coming(limits, st', id) && Leads(st, st') && Shorter(st, st')
    decreases Distance(st.jobs[h])
  {
    var place := ReachableFits(limits, st, h);
    TowardsEnabled(st, h, Plenty(st), h in QueuedIds(st.sched), h in st.waiters, place);
    if Distance(st.jobs[h]) > 1 {
      var st1 := OneStepCloser(limits, st, id, h);
      st' := GiveBack(limits, st1, id, h);
      LeadsOn(st, st1, st');
    } else {
      var a := Towards(st.jobs[h], h, Plenty(st));
      FinishPops(st, a);
      Go(limits, st, a, id);
      st' := Next(st, a);
    }
  }

  // ------------------------------------------------------------------------------------------
  // A slot in a wake loop

  lemma OrphanSched(st: State, t: Task)
    requires Enabled(st, ReturnOrphan(t))
    ensures var st' := Next(st, ReturnOrphan(t)); var f := st.frames[t];
      && st'.sched == S.Poll(S.FreeSlot(st.sched), f.mem)
      && t in st'.frames && st'.frames[t].orphaned == f.orphaned[1..] && f.released <= st'.frames[t].released
  {
  }

  /** Refunding an orphan lets another job start, or leaves one slot more; the frame shrinks. */
  lemma OrphanRefunded(st: State, t: Task)
    requires Enabled(st, ReturnOrphan(t)) && st.sched.running > 0
    ensures var st' := Next(st, ReturnOrphan(t));
      Shorter(st, st') || (st'.sched.queue == st.sched.queue && st'.sched.running == st.sched.running - 1
                           && st'.sched.limits == st.sched.limits && st'.frames[t].released == st.frames[t].released)
  {
    OrphanSched(st, t);
    PollOnlyPops(S.FreeSlot(st.sched), st.frames[t].mem);
    var released := S.Ids(S.Released(S.FreeSlot(st.sched), st.frames[t].mem));
    assert released == [] ==> st.frames[t].released + released == st.frames[t].released;
  }

  lemma DeliverKeeps(st: State, t: Task)
    requires Enabled(st, Deliver(t))
    ensures var st' := DeliverAll(st, t); var f := st.frames[t];
      && st'.sched == st.sched && t in st'.frames && st'.frames[t].released == []
      && st'.frames[t].orphaned == Orphans(f.released, st.waiters)
  {
  }

  lemma {:induction false} FewerOrphans(released: seq<JobId>, waiters: set<JobId>)
    ensures |Orphans(released, waiters)| <= |released|
  {
    if released != [] {
      FewerOrphans(released[1..], waiters);
    }
  }

  /** The jobs in a frame hold slots, so there is one to give back. */
  lemma FrameHoldsSlot(limits: S.Limits, st: State, t: Task, h: JobId)
    requires Reachable(limits, st) && t in st.frames && h in FrameIds(st.frames[t])
    ensures 0 < st.sched.running <= st.sched.limits.maxJobs && h in st.jobs && InWake(st, h)
  {
    SlotConservation(limits, st);
    ReachableTracked(limits, st);
    FrameMemberIsJob(st, t, h);
    assert h in Holders(st);
  }

  lemma FrameMemberIsJob(st: State, t: Task, h: JobId)
    requires Tracked(st) && t in st.frames && h in FrameIds(st.frames[t])
    ensures h in st.jobs && InWake(st, h)
  {
    var slot :| Tracks(st, slot);
    FrameMember(st.frames, slot, st.jobs, t, h);
  }

  lemma FrameMember(frames: map<Task, Frame>, slot: Slots, jobs: map<JobId, Job>, t: Task, h: JobId)
    requires FramesFit(frames, slot) && slot.Keys <= jobs.Keys && t in frames && h in FrameIds(frames[t])
    ensures h in jobs
  {
    assert h in slot.Keys;
  }

  /** With a slot free, the poller can be brought to release a job. */
  lemma PollerPops(limits: S.Limits, st: State, id: JobId) returns (st': State)
    requires Coming(limits, st, id) && st.sched.queue != [] && st.sched.running < st.sched.limits.maxJobs
    ensures Coming(limits, st', id) && Leads(st, st') && Shorter(st, st')
    decreases PollWork(st)
  {
    if PollTask !in st.frames {
      TickSched(st, Plenty(st));
      PollPops(st.sched, Plenty(st));
      Go(limits, st, Tick(Plenty(st)), id);
      return Next(st, Tick(Plenty(st)));
    }
    var a := PollerStep(st.frames[PollTask]);
    PollerProgress(limits, st);
    Go(limits, st, a, id);
    var st1 := Next(st, a);
    if Shorter(st, st1) {
      return st1;
    }
    st' := PollerPops(limits, st1, id);
    LeadsOn(st, st1, st');
  }

  lemma TickSched(st: State, mem: nat)
    requires Enabled(st, Tick(mem))
    ensures Next(st, Tick(mem)).sched == S.Poll(st.sched, mem)
  {
  }

  function PollWork(st: State): nat {
    if PollTask in st.frames then 1 + 2 * |st.frames[PollTask].released| + |st.frames[PollTask].orphaned| else 0
  }

  function PollerStep(f: Frame): Action {
    if f.orphaned != [] then ReturnOrphan(PollTask)
    else if f.released != [] then Deliver(PollTask)
    else EndWake(PollTask)
  }

  lemma PollerProgress(limits: S.Limits, st: State)
    requires Reachable(limits, st) && PollTask in st.frames && st.sched.running < st.sched.limits.maxJobs
    ensures Enabled(st, PollerStep(st.frames[PollTask]))
    ensures var st' := Next(st, PollerStep(st.frames[PollTask]));
      Shorter(st, st') || (PollWork(st') < PollWork(st) && st'.sched.queue == st.sched.queue
                           && st'.sched.limits == st.sched.limits && st'.sched.running <= st.sched.running)
  {
    var f := st.frames[PollTask];
    if f.orphaned != [] {
      FrameHoldsSlot(limits, st, PollTask, f.orphaned[0]);
      OrphanSched(st, PollTask);
      OrphanRefunded(st, PollTask);
    } else if f.released != [] {
      DeliverKeeps(st, PollTask);
      FewerOrphans(f.released, st.waiters);
    }
  }

  lemma QueuedIsElsewhere(limits: S.Limits, st: State, id: JobId)
    requires Reachable(limits, st) && id in st.jobs && id in QueuedIds(st.sched)
    ensures !InHand(st.jobs[id]) && !InWake(st, id)
  {
    var place := ReachableFits(limits, st, id);
  }

  lemma QueuedMeansQueue(sched: S.State, id: JobId)
    requires id in QueuedIds(sched)
    ensures sched.queue != []
  {
  }

  lemma DeliveredOrOrphaned(st: State, t: Task, h: JobId)
    requires Enabled(st, Deliver(t)) && h in st.jobs && h in st.frames[t].released
    ensures var st' := DeliverAll(st, t);
      h in st'.jobs && (st'.jobs[h].mail.Sent? || h in st'.frames[t].orphaned)
  {
  }

  /** A wake loop that holds a slot can be brought to deliver it or to give it back; either way a job leaves the
      queue. */
  lemma WakePops(limits: S.Limits, st: State, id: JobId, t: Task, h: JobId) returns (st': State)
    requires Coming(limits, st, id) && id in QueuedIds(st.sched) && t in st.frames && h in FrameIds(st.frames[t])
    ensures Coming(limits, st', id) && Leads(st, st') && Shorter(st, st')
    decreases st.frames[t].orphaned == []
  {
    FrameHoldsSlot(limits, st, t, h);
    QueuedMeansQueue(st.sched, id);
    var f := st.frames[t];
    if f.orphaned != [] {
      OrphanRefunded(st, t);
      Go(limits, st, ReturnOrphan(t), id);
      var st1 := Next(st, ReturnOrphan(t));
      if Shorter(st, st1) {
        return st1;
      }
      st' := PollerPops(limits, st1, id);
      LeadsOn(st, st1, st');
    } else {
      DeliverKeeps(st, t);
      DeliveredOrOrphaned(st, t, h);
      QueuedIsElsewhere(limits, st, id);
      Go(limits, st, Deliver(t), id);
      var st1 := Next(st, Deliver(t));
      if h in st1.frames[t].orphaned {
        st' := WakePops(limits, st1, id, t, h);
      } else {
        st' := GiveBack(limits, st1, id, h);
      }
      LeadsOn(st, st1, st');
    }
  }

  /** While the job is queued, some job - perhaps itself - can be brought to leave the queue. */
  lemma SomeJobLeaves(limits: S.Limits, st: State, id: JobId) returns (st': State)
    requires Coming(limits, st, id) && id in QueuedIds(st.sched) && limits.maxJobs > 0
    ensures Coming(limits, st', id) && Leads(st, st') && Shorter(st, st')
  {
    QueuedMeansQueue(st.sched, id);
    SlotConservation(limits, st);
    ReachableTracked(limits, st);
    if st.sched.running < limits.maxJobs {
      st' := PollerPops(limits, st, id);
    } else {
      var h :| h in Holders(st);
      QueuedIsElsewhere(limits, st, id);
      if InHand(st.jobs[h]) {
        st' := GiveBack(limits, st, id, h);
      } else {
        var t :| t in st.frames && h in FrameIds(st.frames[t]);
        st' := WakePops(limits, st, id, t, h);
      }
    }
  }

  // ------------------------------------------------------------------------------------------
  // The release arrives

  /** The wake loop that popped the job can be brought to look for its waiter, and finds it. */
  lemma Delivered(limits: S.Limits, st: State, id: JobId, t: Task) returns (st': State)
    requires Coming(limits, st, id) && t in st.frames && id in st.frames[t].released
    ensures Coming(limits, st', id) && Leads(st, st') && st'.jobs[id].mail.Sent?
    decreases |st.frames[t].orphaned|
  {
    var f := st.frames[t];
    if f.orphaned != [] {
      OrphanSched(st, t);
      Go(limits, st, ReturnOrphan(t), id);
      var st1 := Next(st, ReturnOrphan(t));
      st' := Delivered(limits, st1, id, t);
      LeadsOn(st, st1, st');
    } else {
      var place := ReachableFits(limits, st, id);
      PoppedIsInWake(st, t, id);
      DeliverAfter(st, t, id);
      Go(limits, st, Deliver(t), id);
      st' := Next(st, Deliver(t));
    }
  }

  lemma PoppedIsInWake(st: State, t: Task, id: JobId)
    requires t in st.frames && id in st.frames[t].released
    ensures InWake(st, id)
  {
    assert id in FrameIds(st.frames[t]);
  }

  lemma Received(limits: S.Limits, st: State, id: JobId) returns (st': State)
    requires Coming(limits, st, id) && st.jobs[id].mail.Sent?
    ensures Reachable(limits, st') && Leads(st, st') && Enabled(st', Local(id, Receive))
  {
    LeadsNowhere(st);
    if st.jobs[id].phase.Waiting? {
      return st;
    }
    var a := Local(id, Announce(true));
    ReachableNext(limits, st, a);
    LeadsByStep(st, a);
    st' := Next(st, a);
  }

  /** From every reachable state in which a release is to come, it can come. */
  lemma ReleaseArrives(limits: S.Limits, st: State, id: JobId) returns (st': State)
    requires Coming(limits, st, id) && limits.maxJobs > 0
    ensures Reachable(limits, st') && Leads(st, st') && Enabled(st', Local(id, Receive))
    decreases |st.sched.queue|
  {
    if st.jobs[id].mail.Sent? {
      st' := Received(limits, st, id);
    } else if t :| t in st.frames && id in st.frames[t].released {
      var st1 := Delivered(limits, st, id, t);
      st' := Received(limits, st1, id);
      LeadsOn(st, st1, st');
    } else {
      var st1 := SomeJobLeaves(limits, st, id);
      st' := ReleaseArrives(limits, st1, id);
      LeadsOn(st, st1, st');
    }
  }

  lemma ContinuedRun(limits: S.Limits, run: seq<State>, path: seq<State>)
    requires IsRun(limits, run) && IsPath(path) && run[|run| - 1] == path[0]
    ensures IsRun(limits, run + path[1..])
  {
    JoinPaths(run, path);
  }

  /** A connection that can still receive its release had one to come all along. */
  lemma OnlyIfComing(limits: S.Limits, st: State, id: JobId, st': State)
    requires Reachable(limits, st) && Parked(st, id) && Leads(st, st') && Enabled(st', Local(id, Receive))
    ensures ReleaseComing(st, id)
  {
    var run :| IsRun(limits, run) && run[|run| - 1] == st;
    var path :| IsPath(path) && path[0] == st && path[|path| - 1] == st';
    ContinuedRun(limits, run, path);
    var all := run + path[1..];
    assert all[|run| - 1] == st && all[|all| - 1] == st';
    FateFrom(limits, all, |run| - 1, |all| - 1, id);
  }

  /** With at least one slot, a waiting connection can still be released if and only if its id is queued, popped and
      about to be looked up, or already in its mailbox. */
  lemma ReleasableExactly(limits: S.Limits, st: State, id: JobId)
    requires Reachable(limits, st) && Parked(st, id) && limits.maxJobs > 0
    ensures ReleaseComing(st, id) <==> exists st' :: Leads(st, st') && Enabled(st', Local(id, Receive))
  {
    if ReleaseComing(st, id) {
      var st' := ReleaseArrives(limits, st, id);
    }
    if st' :| Leads(st, st') && Enabled(st', Local(id, Receive)) {
      OnlyIfComing(limits, st, id, st');
    }
  }
}
