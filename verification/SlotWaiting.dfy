/** What a queued connection may hope for. Admitting a job and registering its waiter are two lock
    acquisitions; whether the release of the job can still reach the connection is settled, for
    good, by the state in which the waiter is registered. */
module SlotWaiting {
  import opened Options
  import opened JobEvents
  import S = Scheduling
  import opened SlotProtocol
  import opened SlotSafety
  import opened SlotTheorems

  /** The connection has registered its waiter and waits for the release. */
  predicate Parked(st: State, id: JobId) {
    id in st.jobs && (st.jobs[id].phase.Announcing? || st.jobs[id].phase.Waiting?)
  }

  ghost predicate Popped(frames: map<Task, Frame>, id: JobId) {
    exists t :: t in frames && id in frames[t].released
  }

  /** The job is still queued, or a wake loop is about to look for its waiter. */
  ghost predicate StillComing(st: State, id: JobId) {
    id in QueuedIds(st.sched) || Popped(st.frames, id)
  }

  /** The release is still to come or already in the mailbox. */
  ghost predicate ReleaseComing(st: State, id: JobId) {
    StillComing(st, id) || (id in st.jobs && st.jobs[id].mail.Sent?)
  }

  // ------------------------------------------------------------------------------------------
  // No step of any task changes the fate of a parked connection

  lemma SameFate(st: State, st': State, id: JobId)
    requires Parked(st, id) && id in st'.jobs && st'.jobs[id].mail == st.jobs[id].mail
    requires id in QueuedIds(st'.sched) <==> id in QueuedIds(st.sched)
    requires Popped(st'.frames, id) <==> Popped(st.frames, id)
    ensures ReleaseComing(st', id) <==> ReleaseComing(st, id)
  {
  }

  lemma SameReleased(frames: map<Task, Frame>, t: Task, f: Frame, id: JobId)
    requires (t in frames && id in frames[t].released) <==> id in f.released
    ensures Popped(frames[t := f], id) <==> Popped(frames, id)
  {
    var frames' := frames[t := f];
    if u :| u in frames && id in frames[u].released {
      assert u in frames' && id in frames'[u].released;
    }
    if u :| u in frames' && id in frames'[u].released {
      assert u in frames && id in frames[u].released;
    }
  }

  lemma PollKeepsFate(st: State, t: Task, mem: nat, id: JobId)
    requires SchedulerFits(st.sched) && t in st.frames && Parked(st, id)
    ensures ReleaseComing(PollInto(st, t, mem), id) <==> ReleaseComing(st, id)
  {
    var ids := S.Ids(S.Released(st.sched, mem));
    var st' := PollInto(st, t, mem);
    PollSchedule(st.sched, mem);
    if id in ids {
      assert t in st'.frames && id in st'.frames[t].released;
    } else {
      SameReleased(st.frames, t, st'.frames[t], id);
    }
  }

  lemma FinishKeepsFate(st: State, t: Task, done: JobId, mem: nat, id: JobId)
    requires SchedulerFits(st.sched) && t in st.frames && Parked(st, id)
    ensures ReleaseComing(FinishInto(st, t, done, mem), id) <==> ReleaseComing(st, id)
  {
    var mid := st.(sched := S.FreeSlot(st.sched), refunds := st.refunds + multiset{done});
    FreeSlotSchedule(st.sched);
    SameFate(st, mid, id);
    PollKeepsFate(mid, t, mem, id);
  }

  lemma EnterKeepsFate(st: State, t: Task, mem: nat, id: JobId)
    requires Parked(st, id) && t !in st.frames
    ensures ReleaseComing(Enter(st, t, mem), id) <==> ReleaseComing(st, id)
  {
    SameReleased(st.frames, t, Frame([], [], mem), id);
  }

  lemma DeliverKeepsFate(st: State, slot: Slots, t: Task, id: JobId)
    requires Tracks(st, slot) && Enabled(st, Deliver(t)) && Parked(st, id)
    ensures ReleaseComing(DeliverAll(st, t), id) <==> ReleaseComing(st, id)
  {
    var f := st.frames[t];
    var st' := DeliverAll(st, t);
    assert Fits(st.jobs[id], id in QueuedIds(st.sched), id in st.waiters, PlaceOf(slot, id));
    if id in f.released {
      FrameMembers(st.frames, slot, t);
      assert id in FrameIds(f);
      assert id in Woken(f, st.waiters) && st'.jobs[id].mail.Sent?;
    } else {
      SameReleased(st.frames, t, st'.frames[t], id);
      SameFate(st, st', id);
    }
  }

  lemma QueueKeepsFate(st: State, slot: Slots, a: Action, id: JobId)
    requires Tracks(st, slot) && Enabled(st, a) && Parked(st, id) && (a.Admit? || a.Remove?) && Parked(Next(st, a), id)
    ensures ReleaseComing(Next(st, a), id) <==> ReleaseComing(st, id)
  {
    if a.Admit? {
      AdmitKeepsFate(st, slot, a.id, a.mem, id);
    } else {
      RemoveSchedule(st.sched, a.id);
      SameFate(st, RemoveNext(st, a.id), id);
    }
  }

  lemma AdmitKeepsFate(st: State, slot: Slots, other: JobId, mem: nat, id: JobId)
    requires Tracks(st, slot) && Enabled(st, Admit(other, mem)) && Parked(st, id)
    ensures ReleaseComing(AdmitNext(st, other, mem), id) <==> ReleaseComing(st, id)
  {
    CheckingFits(st, slot, other);
    AdmitSchedule(st.sched, other, st.jobs[other].priority, mem);
    var (sched, d) := S.Admit(st.sched, other, st.jobs[other].priority, mem);
    SameFate(st, Decided(st, other, sched, d), id);
  }

  lemma ReturnKeepsFate(st: State, done: JobId, mem: nat, id: JobId)
    requires SchedulerFits(st.sched) && TasksFit(st.frames, st.jobs) && Enabled(st, Return(done, mem)) && Parked(st, id)
    ensures ReleaseComing(Next(st, Return(done, mem)), id) <==> ReleaseComing(st, id)
  {
    var t := ConnTask(done);
    EnterKeepsFate(st, t, mem, id);
    var mid := SetJob(Enter(st, t, mem), done, st.jobs[done].(phase := Waking(st.jobs[done].phase.after)));
    SameFate(Enter(st, t, mem), mid, id);
    FinishKeepsFate(mid, t, done, mem, id);
  }

  lemma SuperviseFinishKeepsFate(st: State, done: JobId, mem: nat, id: JobId)
    requires SchedulerFits(st.sched) && TasksFit(st.frames, st.jobs)
    requires Enabled(st, SuperviseFinish(done, mem)) && Parked(st, id)
    ensures ReleaseComing(Next(st, SuperviseFinish(done, mem)), id) <==> ReleaseComing(st, id)
  {
    var t := SupervisorTask(done);
    EnterKeepsFate(st, t, mem, id);
    var mid := SetJob(Enter(st, t, mem), done, st.jobs[done].(supervisor := Finished));
    SameFate(Enter(st, t, mem), mid, id);
    FinishKeepsFate(mid, t, done, mem, id);
  }

  lemma TickKeepsFate(st: State, mem: nat, id: JobId)
    requires SchedulerFits(st.sched) && Enabled(st, Tick(mem)) && Parked(st, id)
    ensures ReleaseComing(Next(st, Tick(mem)), id) <==> ReleaseComing(st, id)
  {
    EnterKeepsFate(st, PollTask, mem, id);
    PollKeepsFate(Enter(st, PollTask, mem), PollTask, mem, id);
  }

  lemma ReturnOrphanKeepsFate(st: State, t: Task, id: JobId)
    requires SchedulerFits(st.sched) && Enabled(st, ReturnOrphan(t)) && Parked(st, id)
    ensures ReleaseComing(Next(st, ReturnOrphan(t)), id) <==> ReleaseComing(st, id)
  {
    var f := st.frames[t];
    var mid := st.(frames := st.frames[t := f.(orphaned := f.orphaned[1..])]);
    SameReleased(st.frames, t, mid.frames[t], id);
    SameFate(st, mid, id);
    FinishKeepsFate(mid, t, f.orphaned[0], f.mem, id);
  }

  lemma OtherKeepsFate(st: State, a: Action, id: JobId)
    requires Enabled(st, a) && Parked(st, id) && Parked(Next(st, a), id) && st.nextId !in st.jobs
    requires a.Connect? || a.Hangup? || a.Submit? || a.Local? || a.Register? || a.Unregister?
    ensures ReleaseComing(Next(st, a), id) <==> ReleaseComing(st, id)
  {
    SameFate(st, Next(st, a), id);
  }

  lemma EndWakeKeepsFate(st: State, t: Task, id: JobId)
    requires Enabled(st, EndWake(t)) && Parked(st, id)
    ensures ReleaseComing(EndWakeNext(st, t), id) <==> ReleaseComing(st, id)
  {
    var st' := EndWakeNext(st, t);
    if u :| u in st.frames && id in st.frames[u].released {
      assert u in st'.frames && id in st'.frames[u].released;
    }
    SameFate(st, st', id);
  }

  lemma StepKeepsFate(st: State, slot: Slots, a: Action, id: JobId)
    requires Tracks(st, slot) && Enabled(st, a) && Parked(st, id) && Parked(Next(st, a), id)
    ensures ReleaseComing(Next(st, a), id) <==> ReleaseComing(st, id)
  {
    if SharedStep(a) {
      SharedStepKeepsFate(st, slot, a, id);
    } else if a.Admit? || a.Remove? {
      QueueKeepsFate(st, slot, a, id);
    } else {
      OtherKeepsFate(st, a, id);
    }
  }

  lemma SharedStepKeepsFate(st: State, slot: Slots, a: Action, id: JobId)
    requires Tracks(st, slot) && Enabled(st, a) && SharedStep(a) && Parked(st, id) && Parked(Next(st, a), id)
    ensures ReleaseComing(Next(st, a), id) <==> ReleaseComing(st, id)
  {
    if a.Deliver? || a.EndWake? {
      match a
      case Deliver(t) => DeliverKeepsFate(st, slot, t, id);
      case EndWake(t) => EndWakeKeepsFate(st, t, id);
    } else {
      PollingStepKeepsFate(st, a, id);
    }
  }

  lemma PollingStepKeepsFate(st: State, a: Action, id: JobId)
    requires SchedulerFits(st.sched) && TasksFit(st.frames, st.jobs) && Enabled(st, a) && Parked(st, id)
    requires a.Return? || a.SuperviseFinish? || a.Tick? || a.ReturnOrphan?
    ensures ReleaseComing(Next(st, a), id) <==> ReleaseComing(st, id)
  {
    match a
    case Return(done, mem) => ReturnKeepsFate(st, done, mem, id);
    case SuperviseFinish(done, mem) => SuperviseFinishKeepsFate(st, done, mem, id);
    case Tick(mem) => TickKeepsFate(st, mem, id);
    case ReturnOrphan(t) => ReturnOrphanKeepsFate(st, t, id);
  }

  // ------------------------------------------------------------------------------------------
  // Over a run

  function Stage(p: Phase): nat {
    match p
    case Checking => 0
    case Registering => 1
    case Announcing => 2
    case Waiting => 3
    case _ => 4
  }

  lemma LocalStage(j: Job, a: LocalAction)
    requires LocalEnabled(j, a)
    ensures Stage(j.phase) <= Stage(LocalNext(j, a).phase)
  {
  }

  lemma StepStage(st: State, a: Action, id: JobId)
    requires Enabled(st, a) && id in st.jobs && st.nextId !in st.jobs
    ensures id in Next(st, a).jobs && Stage(st.jobs[id].phase) <= Stage(Next(st, a).jobs[id].phase)
  {
    StepMovesJob(st, a, id);
    if a.Local? && a.id == id {
      LocalStage(st.jobs[id], a.local);
    }
  }

  lemma StepsStage(st: State, st': State, id: JobId)
    requires Steps(st, st') && Tracked(st) && id in st.jobs
    ensures id in st'.jobs && Stage(st.jobs[id].phase) <= Stage(st'.jobs[id].phase)
  {
    var slot :| Tracks(st, slot);
    var a :| Enabled(st, a) && Next(st, a) == st';
    StepStage(st, a, id);
  }

  lemma StepsKeepFate(st: State, st': State, id: JobId)
    requires Steps(st, st') && Tracked(st) && Parked(st, id) && Parked(st', id)
    ensures ReleaseComing(st', id) <==> ReleaseComing(st, id)
  {
    var slot :| Tracks(st, slot);
    var a :| Enabled(st, a) && Next(st, a) == st';
    StepKeepsFate(st, slot, a, id);
  }

  lemma StageStep(limits: S.Limits, run: seq<State>, k: nat, id: JobId)
    requires IsRun(limits, run) && k + 1 < |run| && id in run[k].jobs
    ensures id in run[k + 1].jobs && Stage(run[k].jobs[id].phase) <= Stage(run[k + 1].jobs[id].phase)
  {
    RunTracked(limits, run, k);
    assert StepAt(run, k);
    StepsStage(run[k], run[k + 1], id);
  }

  lemma FateStep(limits: S.Limits, run: seq<State>, k: nat, id: JobId)
    requires IsRun(limits, run) && k + 1 < |run| && Parked(run[k], id) && Parked(run[k + 1], id)
    ensures ReleaseComing(run[k + 1], id) <==> ReleaseComing(run[k], id)
  {
    RunTracked(limits, run, k);
    assert StepAt(run, k);
    StepsKeepFate(run[k], run[k + 1], id);
  }

  lemma {:induction false} StageFrom(limits: S.Limits, run: seq<State>, i: nat, k: nat, id: JobId)
    requires IsRun(limits, run) && i <= k < |run| && id in run[i].jobs
    ensures id in run[k].jobs && Stage(run[i].jobs[id].phase) <= Stage(run[k].jobs[id].phase)
  {
    if i < k {
      StageFrom(limits, run, i, k - 1, id);
      StageStep(limits, run, k - 1, id);
    }
  }

  lemma {:induction false} FateFrom(limits: S.Limits, run: seq<State>, i: nat, k: nat, id: JobId)
    requires IsRun(limits, run) && i <= k < |run| && Parked(run[i], id) && Parked(run[k], id)
    ensures ReleaseComing(run[k], id) <==> ReleaseComing(run[i], id)
  {
    if i < k {
      StageFrom(limits, run, i, k - 1, id);
      StageStep(limits, run, k - 1, id);
      FateFrom(limits, run, i, k - 1, id);
      FateStep(limits, run, k - 1, id);
    }
  }

  /** The exact condition: a connection that is still waiting has its release queued, on its way or
      delivered if and only if its job was still coming when the waiter was registered. */
  lemma FateSettledAtRegistration(limits: S.Limits, run: seq<State>, i: nat, k: nat, id: JobId)
    requires IsRun(limits, run) && i < k < |run|
    requires Enabled(run[i], Register(id)) && run[i + 1] == Next(run[i], Register(id)) && Parked(run[k], id)
    ensures ReleaseComing(run[k], id) <==> StillComing(run[i], id)
    ensures !StillComing(run[i], id) ==> !Enabled(run[k], Local(id, Receive))
  {
    FateFrom(limits, run, i + 1, k, id);
    assert run[i + 1].jobs[id].mail.Open?;
    assert ReleaseComing(run[i + 1], id) <==> StillComing(run[i], id);
  }

  // ------------------------------------------------------------------------------------------
  // The lost wake-up: one run in which the condition fails

  lemma ReachableNext(limits: S.Limits, st: State, a: Action)
    requires Reachable(limits, st) && Enabled(st, a)
    ensures Reachable(limits, Next(st, a))
  {
    var run :| IsRun(limits, run) && run[|run| - 1] == st;
    var run' := run + [Next(st, a)];
    forall i: nat | i + 1 < |run'| ensures StepAt(run', i) {
      if i + 1 < |run| {
        assert StepAt(run, i);
      } else {
        assert run'[i] == st;
      }
    }
    assert IsRun(limits, run');
  }

  function Fresh(c: ConnId): Job {
    Job(c, S.Agent, Checking, NoMail, NoSupervisor, false, [], [])
  }

  const ONE := S.Limits(1, 0, 1)

  /** Job 1 runs, job 2 is admitted to the queue, and its waiter is not yet registered. */
  function QueueOccupied(): State {
    State(S.State(ONE, 1, [S.Entry(2, S.Agent, 1)], 1), {}, map[],
          map[1 := Fresh(0).(phase := Forwarding(0), supervisor := Supervising(false)),
              2 := Fresh(1).(phase := Registering)],
          {0, 1}, 3, multiset{1}, multiset{})
  }

  lemma FirstRunsReachable()
    ensures Reachable(ONE, FirstRuns())
  {
    var s0 := Init(ONE);
    assert IsRun(ONE, [s0]);
    ReachableNext(ONE, s0, Connect(0));
    var s1 := Next(s0, Connect(0));
    ReachableNext(ONE, s1, Submit(0, S.Agent));
    var s2 := Next(s1, Submit(0, S.Agent));
    ReachableNext(ONE, s2, Admit(1, 1));
    var s3 := Next(s2, Admit(1, 1));
    assert s3.jobs[1].phase.Starting?;
    ReachableNext(ONE, s3, Local(1, Launch(true)));
    assert Next(s3, Local(1, Launch(true))) == FirstRuns();
  }

  /** Job 1 runs. */
  function FirstRuns(): State {
    State(S.State(ONE, 1, [], 0), {}, map[], map[1 := Fresh(0).(phase := Forwarding(0),
        supervisor := Supervising(false))],
          {0}, 2, multiset{1}, multiset{})
  }

  lemma QueueOccupiedReachable()
    ensures Reachable(ONE, QueueOccupied())
  {
    FirstRunsReachable();
    var s4 := FirstRuns();
    ReachableNext(ONE, s4, Connect(1));
    var s5 := Next(s4, Connect(1));
    ReachableNext(ONE, s5, Submit(1, S.Agent));
    var s6 := Next(s5, Submit(1, S.Agent));
    ReachableNext(ONE, s6, Admit(2, 1));
    var s7 := Next(s6, Admit(2, 1));
    assert s7.sched.queue == [S.Entry(2, S.Agent, 1)];
    assert s7 == QueueOccupied();
  }

  /** Job 1 has ended; the wake loop found no waiter for job 2 and gave its slot back. */
  function QueueDrained(): State {
    State(S.State(ONE, 0, [], 1), {}, map[],
          map[1 := Fresh(0).(phase := Forwarding(0), supervisor := Finished, pumping := true, sent := [Started,
              Exited(Code(0))]),
              2 := Fresh(1).(phase := Registering)],
          {0, 1}, 3, multiset{1, 2}, multiset{1, 2})
  }

  /** Job 1 has ended, and its supervisor has popped job 2. */
  function QueuePopped(): State {
    QueueDrained().(sched := S.State(ONE, 1, [], 1), frames := map[SupervisorTask(1) := Frame([2], [], 1)],
                    refunds := multiset{1})
  }

  lemma QueuePoppedReachable()
    ensures Reachable(ONE, QueuePopped())
  {
    QueueOccupiedReachable();
    var s0 := QueueOccupied();
    ReachableNext(ONE, s0, Local(1, SuperviseStart));
    var s1 := Next(s0, Local(1, SuperviseStart));
    ReachableNext(ONE, s1, Local(1, SuperviseExit(Code(0))));
    var s2 := Next(s1, Local(1, SuperviseExit(Code(0))));
    assert s2.jobs[1].sent == [Started, Exited(Code(0))];
    PopJob2(s2);
  }

  lemma PopJob2(st: State)
    requires Reachable(ONE, st)
    requires st == QueueDrained().(sched := QueueOccupied().sched, grants := multiset{1}, refunds := multiset{},
                                   jobs := st.jobs)
    requires 1 in st.jobs && st.jobs[1].supervisor.Ended?
    requires st.jobs[1 := st.jobs[1].(supervisor := Finished)] == QueueDrained().jobs
    ensures Reachable(ONE, QueuePopped())
  {
    ReachableNext(ONE, st, SuperviseFinish(1, 1));
    var free := S.FreeSlot(st.sched);
    assert S.Releasable(free, 1) == 1;
    assert free.queue[1..] == [] && S.Poll(free, 1) == S.State(ONE, 1, [], 1);
    assert S.Ids(S.Released(free, 1)) == [2];
    var st' := Next(st, SuperviseFinish(1, 1));
    assert st'.frames[SupervisorTask(1)] == Frame([2], [], 1);
    assert st'.frames == QueuePopped().frames;
    assert st'.grants == multiset{1, 2} && st'.refunds == multiset{1};
    assert st' == QueuePopped();
  }

  lemma QueueDrainedReachable()
    ensures Reachable(ONE, QueueDrained())
  {
    QueuePoppedReachable();
    var t := SupervisorTask(1);
    var s3 := QueuePopped();
    ReachableNext(ONE, s3, Deliver(t));
    var s4 := Next(s3, Deliver(t));
    assert Orphans([2], {}) == [2] by { assert [2][1..] == []; }
    assert s4 == s3.(frames := map[t := Frame([], [2], 1)]);
    ReachableNext(ONE, s4, ReturnOrphan(t));
    assert S.Ids(S.Released(S.FreeSlot(s4.sched), 1)) == [];
    var s5 := Next(s4, ReturnOrphan(t));
    assert s5.frames[t] == Frame([], [], 1);
    assert s5.frames == map[t := Frame([], [], 1)];
    ReachableNext(ONE, s5, EndWake(t));
    assert Next(s5, EndWake(t)) == QueueDrained();
  }

  /** An idle server - nothing runs, nothing is queued, no wake loop is left - with a connection that
      waits for a release nobody will ever send. */
  lemma LostWakeUp()
    ensures exists st :: Reachable(ONE, st) && st.sched.running == 0 && st.sched.queue == [] && st.frames == map[]
                         && Parked(st, 2) && !ReleaseComing(st, 2)
  {
    QueueDrainedReachable();
    var s0 := QueueDrained();
    ReachableNext(ONE, s0, Register(2));
    var s1 := Next(s0, Register(2));
    ReachableNext(ONE, s1, Local(2, Announce(true)));
    var s2 := Next(s1, Local(2, Announce(true)));
    assert Parked(s2, 2) && !ReleaseComing(s2, 2);
  }
}
