/** What every run of the slot protocol keeps: slot accounting, withdrawal, and event order. */
module SlotTheorems {
  import opened Options
  import opened JobEvents
  import S = Scheduling
  import opened SlotProtocol
  import opened SlotSafety

  // ------------------------------------------------------------------------------------------
  // Slot accounting

  ghost predicate Tracked(st: State) {
    exists slot :: Tracks(st, slot)
  }

  lemma InitTracks(limits: S.Limits)
    ensures Tracks(Init(limits), map[])
  {
  }

  lemma {:induction false} NextKeepsLimits(st: State, a: Action)
    requires Enabled(st, a)
    ensures Next(st, a).sched.limits == st.sched.limits
  {
    match a
    case Admit(id, mem) =>
      var (sched, d) := S.Admit(st.sched, id, st.jobs[id].priority, mem);
      assert sched.limits == st.sched.limits;
    case _ =>
  }

  lemma {:induction false} RunTracked(limits: S.Limits, run: seq<State>, i: nat)
    requires IsRun(limits, run) && i < |run|
    ensures Tracked(run[i]) && run[i].sched.limits == limits
  {
    if i == 0 {
      InitTracks(limits);
    } else {
      RunTracked(limits, run, i - 1);
      assert StepAt(run, i - 1);
      var slot :| Tracks(run[i - 1], slot);
      var a :| Enabled(run[i - 1], a) && Next(run[i - 1], a) == run[i];
      NextKeepsLimits(run[i - 1], a);
      var slot' := StepTracks(run[i - 1], slot, a);
    }
  }

  lemma ReachableTracked(limits: S.Limits, st: State)
    requires Reachable(limits, st)
    ensures Tracked(st) && st.sched.limits == limits
  {
    var run :| IsRun(limits, run) && run[|run| - 1] == st;
    RunTracked(limits, run, |run| - 1);
  }

  ghost predicate InWake(st: State, id: JobId) {
    exists t :: t in st.frames && id in FrameIds(st.frames[t])
  }

  /** The job's slot is with its connection, in its mailbox, with its supervisor, or in a wake loop. */
  ghost predicate HoldsSlot(st: State, id: JobId) {
    && id in st.jobs
    && (var j := st.jobs[id];
        || j.phase.Starting? || j.phase.Returning?
        || j.mail.Sent?
        || j.supervisor.Supervising? || j.supervisor.Ended?
        || InWake(st, id))
  }

  ghost function Holders(st: State): set<JobId> {
    set id | id in st.jobs && HoldsSlot(st, id)
  }

  lemma HandOf(j: Job, queued: bool, waits: bool, place: Option<Place>)
    requires Fits(j, queued, waits, place)
    ensures place.Some? && !place.value.InFrame? <==>
      j.phase.Starting? || j.phase.Returning? || j.mail.Sent? || j.supervisor.Supervising? || j.supervisor.Ended?
  {
  }

  lemma InWakeExactly(frames: map<Task, Frame>, slot: Slots, id: JobId)
    requires FramesFit(frames, slot)
    ensures (exists t :: t in frames && id in FrameIds(frames[t])) <==> id in slot && slot[id].InFrame?
  {
  }

  lemma HolderHasSlot(st: State, slot: Slots, id: JobId)
    requires Tracks(st, slot)
    ensures HoldsSlot(st, id) <==> id in slot
  {
    InWakeExactly(st.frames, slot, id);
    if id in st.jobs {
      HandOf(st.jobs[id], id in QueuedIds(st.sched), id in st.waiters, PlaceOf(slot, id));
    } else {
      assert id !in slot.Keys;
    }
  }

  /** `running` is the number of slot holders, and within the limit. */
  lemma SlotConservation(limits: S.Limits, st: State)
    requires Reachable(limits, st)
    ensures st.sched.running == |Holders(st)|
    ensures st.sched.running <= limits.maxJobs
  {
    ReachableTracked(limits, st);
    var slot :| Tracks(st, slot);
    forall id ensures id in Holders(st) <==> id in slot.Keys {
      HolderHasSlot(st, slot, id);
      assert id in slot ==> id in st.jobs.Keys;
    }
    assert Holders(st) == slot.Keys;
  }

  predicate Finishes(a: Action) {
    a.Return? || a.SuperviseFinish? || a.ReturnOrphan?
  }

  /** The job whose slot a finishing action gives up. */
  function FinishedJob(st: State, a: Action): JobId
    requires Enabled(st, a) && Finishes(a)
  {
    match a
    case Return(id, _) => id
    case SuperviseFinish(id, _) => id
    case ReturnOrphan(t) => st.frames[t].orphaned[0]
  }

  /** `saturating_sub` never clamps, and the slot given up is one that was held. */
  lemma FinishNeverClamps(limits: S.Limits, st: State, a: Action)
    requires Reachable(limits, st) && Enabled(st, a) && Finishes(a)
    ensures S.FreeSlot(st.sched).running == st.sched.running - 1
    ensures FinishedJob(st, a) in Holders(st) && st.refunds[FinishedJob(st, a)] == 0
  {
    ReachableTracked(limits, st);
    var slot :| Tracks(st, slot);
    var id := FinishedJob(st, a);
    if a.ReturnOrphan? {
      OrphanLeavesFrame(st.frames, slot, a.t);
      assert id in slot.Keys;
    } else {
      assert Fits(st.jobs[id], id in QueuedIds(st.sched), id in st.waiters, PlaceOf(slot, id));
    }
    HolderHasSlot(st, slot, id);
    assert |slot| >= 1;
  }

  /** Every slot is granted at most once and given back at most once; it is given back exactly
      when it was granted and is in nobody's hands. */
  lemma SlotGivenBackOnce(limits: S.Limits, st: State, id: JobId)
    requires Reachable(limits, st)
    ensures st.refunds[id] <= st.grants[id] <= 1
    ensures st.refunds[id] == 1 <==> st.grants[id] == 1 && !HoldsSlot(st, id)
  {
    ReachableTracked(limits, st);
    var slot :| Tracks(st, slot);
    HolderHasSlot(st, slot, id);
  }

  /** The connection is through with a job that was never launched: refused, withdrawn, or failed to start. */
  predicate NeverLaunched(j: Job) {
    j.supervisor.NoSupervisor? && (j.phase.Waking? || j.phase.Replying? || j.phase.Over?)
  }

  /** After a withdrawal the slot, if the job ever got one, has been given back or is an orphan in a
      wake loop that will give it back; a job that never got one gives back nothing. */
  lemma WithdrawalSettlesSlot(limits: S.Limits, st: State, id: JobId)
    requires Reachable(limits, st) && id in st.jobs && NeverLaunched(st.jobs[id])
    ensures st.refunds[id] == st.grants[id] <==> !InWake(st, id)
    ensures InWake(st, id) ==> st.grants[id] == 1 && st.refunds[id] == 0
    ensures id !in QueuedIds(st.sched) && id !in st.waiters
  {
    ReachableTracked(limits, st);
    var slot :| Tracks(st, slot);
    SettledFits(st, slot, id);
  }

  lemma SettledFits(st: State, slot: Slots, id: JobId)
    requires Tracks(st, slot) && id in st.jobs && NeverLaunched(st.jobs[id])
    ensures st.refunds[id] == st.grants[id] <==> !InWake(st, id)
    ensures InWake(st, id) ==> st.grants[id] == 1 && st.refunds[id] == 0
    ensures id !in QueuedIds(st.sched) && id !in st.waiters
  {
    OverFits(st.jobs[id], id in QueuedIds(st.sched), id in st.waiters, PlaceOf(slot, id));
    FrameHolds(st.frames, slot, id);
    assert st.refunds[id] + (if id in slot then 1 else 0) == st.grants[id];
  }

  lemma OverFits(j: Job, queued: bool, waits: bool, place: Option<Place>)
    requires Fits(j, queued, waits, place) && NeverLaunched(j)
    ensures !queued && !waits && (place.None? || place.value.InFrame?)
  {
  }

  lemma FrameHolds(frames: map<Task, Frame>, slot: Slots, id: JobId)
    requires FramesFit(frames, slot) && (id !in slot || slot[id].InFrame?)
    ensures id in slot <==> exists t :: t in frames && id in FrameIds(frames[t])
  {
  }

  /** The sender of a waiting connection is never dropped unsent. */
  lemma NeverDroppedWhileWaiting(limits: S.Limits, st: State, id: JobId)
    requires Reachable(limits, st)
    ensures !Enabled(st, Local(id, ReceiveDropped))
  {
    if id in st.jobs {
      var place := ReachableFits(limits, st, id);
    }
  }

  lemma ReachableFits(limits: S.Limits, st: State, id: JobId) returns (place: Option<Place>)
    requires Reachable(limits, st) && id in st.jobs
    ensures Fits(st.jobs[id], id in QueuedIds(st.sched), id in st.waiters, place)
    ensures place.Some? <==> HoldsSlot(st, id)
    ensures place.Some? && place.value.InFrame? <==> InWake(st, id)
  {
    ReachableTracked(limits, st);
    var slot :| Tracks(st, slot);
    place := PlaceOf(slot, id);
    HolderHasSlot(st, slot, id);
    InWakeExactly(st.frames, slot, id);
  }

  // ------------------------------------------------------------------------------------------
  // What a step of any task does to one job

  /** Steps of the poller, the supervisors and the wake loops. */
  predicate SharedStep(a: Action) {
    a.Return? || a.SuperviseFinish? || a.Tick? || a.Deliver? || a.ReturnOrphan? || a.EndWake?
  }

  /** A step that is not the job's own may take its connection past a lock, deliver its mail, or end its supervisor. */
  predicate SharedMove(j: Job, j': Job) {
    && j'.conn == j.conn && j'.priority == j.priority && j'.log == j.log && j'.sent == j.sent && j'.pumping == j.pumping
    && (j'.supervisor == j.supervisor || (j.supervisor.Ended? && j'.supervisor.Finished?))
    && (j'.phase == j.phase ||
        match j.phase
        case Checking => j'.phase.Starting? || j'.phase.Registering? || j'.phase == Replying(Rejected)
        case Registering => j'.phase.Announcing?
        case Removing(after) => j'.phase.Unregistering? && j'.phase.after == after
        case Unregistering(_, after) => j'.phase.Probing? && j'.phase.after == after
        case Returning(after) => j'.phase == Waking(after)
        case Waking(after) => j'.phase == PhaseAfter(after)
        case _ => false)
  }

  function PhaseOf(d: S.Decision): Phase {
    match d
    case Accept => Starting
    case Queue(_) => Registering
    case Saturated => Replying(Rejected)
  }

  /** The job after the step, told from the job alone and what the locks say about it. */
  function JobAfter(st: State, a: Action, id: JobId): Job
    requires Enabled(st, a) && id in st.jobs
  {
    var j := st.jobs[id];
    match a
    case Local(i, local) => if i == id then LocalNext(j, local) else j
    case Admit(i, mem) => if i == id then j.(phase := PhaseOf(S.Admit(st.sched, i, j.priority, mem).1)) else j
    case Register(i) => if i == id then j.(phase := Announcing, mail := Open) else j
    case Remove(i) =>
      if i == id then j.(phase := Unregistering(S.RemoveQueued(st.sched, i).1, j.phase.after)) else j
    case Unregister(i) =>
      if i == id then
        j.(phase := Probing(j.phase.wasQueued, j.phase.after), mail := if id in st.waiters then Dropped else j.mail)
      else j
    case Return(i, _) => if i == id then j.(phase := Waking(j.phase.after)) else j
    case SuperviseFinish(i, _) => if i == id then j.(supervisor := Finished) else j
    case Deliver(t) => if id in st.frames[t].released && id in st.waiters then j.(mail := Sent) else j
    case EndWake(t) => if t == ConnTask(id) then j.(phase := PhaseAfter(j.phase.after)) else j
    case _ => j
  }

  lemma AdmitAfter(st: State, i: JobId, mem: nat, id: JobId)
    requires Enabled(st, Admit(i, mem)) && id in st.jobs
    ensures id in AdmitNext(st, i, mem).jobs && AdmitNext(st, i, mem).jobs[id] == JobAfter(st, Admit(i, mem), id)
  {
    var (sched, d) := S.Admit(st.sched, i, st.jobs[i].priority, mem);
    assert Decided(st, i, sched, d).jobs == st.jobs[i := st.jobs[i].(phase := PhaseOf(d))];
  }

  lemma FinishAfter(st: State, a: Action, id: JobId)
    requires Enabled(st, a) && (a.Return? || a.SuperviseFinish?) && id in st.jobs
    ensures id in Next(st, a).jobs && Next(st, a).jobs[id] == JobAfter(st, a, id)
  {
  }

  lemma WakeAfter(st: State, a: Action, id: JobId)
    requires Enabled(st, a) && (a.Tick? || a.ReturnOrphan?) && id in st.jobs
    ensures Next(st, a).jobs == st.jobs && JobAfter(st, a, id) == st.jobs[id]
  {
  }

  lemma DeliverAfter(st: State, t: Task, id: JobId)
    requires Enabled(st, Deliver(t)) && id in st.jobs
    ensures id in DeliverAll(st, t).jobs && DeliverAll(st, t).jobs[id] == JobAfter(st, Deliver(t), id)
  {
  }

  lemma EndWakeAfter(st: State, t: Task, id: JobId)
    requires Enabled(st, EndWake(t)) && id in st.jobs
    ensures id in EndWakeNext(st, t).jobs && EndWakeNext(st, t).jobs[id] == JobAfter(st, EndWake(t), id)
  {
  }

  lemma StepAfter(st: State, a: Action, id: JobId)
    requires Enabled(st, a) && st.nextId !in st.jobs && id in st.jobs
    ensures id in Next(st, a).jobs && Next(st, a).jobs[id] == JobAfter(st, a, id)
  {
    match a
    case Admit(i, mem) => AdmitAfter(st, i, mem, id);
    case Return(_, _) => FinishAfter(st, a, id);
    case SuperviseFinish(_, _) => FinishAfter(st, a, id);
    case Tick(_) => WakeAfter(st, a, id);
    case ReturnOrphan(_) => WakeAfter(st, a, id);
    case Deliver(t) => DeliverAfter(st, t, id);
    case EndWake(t) => EndWakeAfter(st, t, id);
    case _ =>
  }

  lemma AfterMoves(st: State, a: Action, id: JobId)
    requires Enabled(st, a) && id in st.jobs
    ensures (a.Local? && a.id == id) || SharedMove(st.jobs[id], JobAfter(st, a, id))
  {
  }

  /** Every step but the job's own is a shared move. */
  lemma StepMovesJob(st: State, a: Action, id: JobId)
    requires Enabled(st, a) && st.nextId !in st.jobs && id in st.jobs
    ensures id in Next(st, a).jobs
    ensures if a.Local? && a.id == id then Next(st, a).jobs[id] == LocalNext(st.jobs[id], a.local)
            else SharedMove(st.jobs[id], Next(st, a).jobs[id])
  {
    StepAfter(st, a, id);
    AfterMoves(st, a, id);
  }

  lemma NewJobs(st: State, a: Action, id: JobId)
    requires Enabled(st, a) && id in Next(st, a).jobs && id !in st.jobs
    ensures var j := Next(st, a).jobs[id];
      j.phase.Checking? && j.supervisor.NoSupervisor? && !j.pumping && j.sent == [] && j.log == []
  {
  }

  // ------------------------------------------------------------------------------------------
  // One job per connection

  ghost predicate OneActiveJob(st: State) {
    && (forall id :: id in st.jobs && !st.jobs[id].phase.Over? ==> st.jobs[id].conn in st.open)
    && (forall a, b :: a in st.jobs && b in st.jobs && st.jobs[a].conn == st.jobs[b].conn
                       && !st.jobs[a].phase.Over? && !st.jobs[b].phase.Over?
                       ==> a == b)
  }

  lemma OneJobActive(st: State, st': State, id: JobId)
    requires OneActiveJob(st) && id in st.jobs && id in st'.jobs
    requires st'.jobs == st.jobs[id := st'.jobs[id]] && st'.jobs[id].conn == st.jobs[id].conn
    requires st.jobs[id].phase.Over? ==> st'.jobs[id].phase.Over?
    requires st'.open == st.open ||
             (st'.open == st.open - {st.jobs[id].conn} && !st.jobs[id].phase.Over? && st'.jobs[id].phase.Over?)
    ensures OneActiveJob(st')
  {
  }

  lemma LocalStaysOver(j: Job, a: LocalAction)
    requires LocalEnabled(j, a)
    ensures LocalNext(j, a).conn == j.conn
    ensures j.phase.Over? ==> LocalNext(j, a).phase.Over? && !Closes(j, a)
    ensures Closes(j, a) ==> LocalNext(j, a).phase.Over?
  {
  }

  lemma StepKeepsOneActiveJob(st: State, a: Action)
    requires OneActiveJob(st) && Enabled(st, a) && st.nextId !in st.jobs
    ensures OneActiveJob(Next(st, a))
  {
    if SharedStep(a) {
      SharedKeepsOneActiveJob(st, a);
    } else {
      match a
      case Local(id, local) =>
        LocalStaysOver(st.jobs[id], local);
        OneJobActive(st, Next(st, a), id);
      case Admit(id, mem) =>
        var (sched, d) := S.Admit(st.sched, id, st.jobs[id].priority, mem);
        OneJobActive(st, Decided(st, id, sched, d), id);
      case Register(id) => OneJobActive(st, Next(st, a), id);
      case Remove(id) => OneJobActive(st, Next(st, a), id);
      case Unregister(id) => OneJobActive(st, Next(st, a), id);
      case _ =>
    }
  }

  lemma SharedKeepsOneActiveJob(st: State, a: Action)
    requires OneActiveJob(st) && Enabled(st, a) && SharedStep(a)
    ensures OneActiveJob(Next(st, a))
  {
    match a
    case Return(id, mem) => OneJobActive(st, Next(st, a), id);
    case SuperviseFinish(id, mem) => OneJobActive(st, Next(st, a), id);
    case EndWake(t) =>
      if t.ConnTask? {
        OneJobActive(st, EndWakeNext(st, t), t.id);
      }
    case _ =>
  }

  /** A connection has at most one job in hand, in every reachable state. */
  lemma {:induction false} OneActiveJobAlways(limits: S.Limits, run: seq<State>, i: nat)
    requires IsRun(limits, run) && i < |run|
    ensures OneActiveJob(run[i]) && IdsBelow(run[i])
  {
    if i > 0 {
      OneActiveJobAlways(limits, run, i - 1);
      assert StepAt(run, i - 1);
      ActiveStep(run[i - 1], run[i]);
    }
  }

  lemma ActiveStep(st: State, st': State)
    requires OneActiveJob(st) && IdsBelow(st) && Steps(st, st')
    ensures OneActiveJob(st') && IdsBelow(st')
  {
    var a :| Enabled(st, a) && Next(st, a) == st';
    StepKeepsOneActiveJob(st, a);
    StepKeepsIdsBelow(st, a);
  }

  ghost predicate IdsBelow(st: State) {
    forall id :: id in st.jobs ==> id < st.nextId
  }

  lemma StepKeepsIdsBelow(st: State, a: Action)
    requires IdsBelow(st) && Enabled(st, a)
    ensures IdsBelow(Next(st, a))
  {
    forall id | id in Next(st, a).jobs ensures id < Next(st, a).nextId {
      KeysGrow(st, a, id);
    }
  }

  lemma KeysGrow(st: State, a: Action, id: JobId)
    requires Enabled(st, a) && id in Next(st, a).jobs
    ensures st.nextId <= Next(st, a).nextId && (id in st.jobs || id == st.nextId < Next(st, a).nextId)
  {
    if SharedStep(a) {
      SharedKeysStay(st, a);
    }
  }

  lemma SharedKeysStay(st: State, a: Action)
    requires Enabled(st, a) && SharedStep(a)
    ensures Next(st, a).jobs.Keys == st.jobs.Keys && Next(st, a).nextId == st.nextId
  {
  }

  // ------------------------------------------------------------------------------------------
  // The events written for one job

  /** `Queued? Started (Stdout|Stderr)* Exited`, `Queued? Rejected`, or `Queued` and the exit of a
      cancelled queued job. */
  ghost predicate CompleteLife(l: seq<Event>) {
    || l == [Rejected] || l == [Queued, Rejected] || l == [Queued, Exited(Signal(15))]
    || (exists n: nat, status :: l == Ran(n, status) || l == [Queued] + Ran(n, status))
  }

  function Talking(n: nat): seq<Event> {
    [Started] + seq(n, _ => Output)
  }

  function Ran(n: nat, status: ExitStatus): seq<Event> {
    Talking(n) + [Exited(status)]
  }

  /** A log that can still become a complete life, or already is one. */
  ghost predicate PartOfLife(l: seq<Event>) {
    exists rest :: CompleteLife(l + rest)
  }

  datatype Progress = Fresh | InQueue | Running | Done | Broken

  function Advance(p: Progress, e: Event): Progress {
    match p
    case Fresh => if e.Queued? then InQueue else if e.Started? then Running else if e.Rejected? then Done else Broken
    case InQueue => if e.Started? then Running else if e.Rejected? || e == CANCELLED then Done else Broken
    case Running => if e.Output? then Running else if e.Exited? then Done else Broken
    case Done => Broken
    case Broken => Broken
  }

  function ProgressOf(l: seq<Event>): Progress {
    if l == [] then Fresh else Advance(ProgressOf(l[..|l| - 1]), l[|l| - 1])
  }

  lemma ProgressOne(l: seq<Event>, e: Event)
    ensures ProgressOf(l + [e]) == Advance(ProgressOf(l), e)
  {
    assert (l + [e])[..|l + [e]| - 1] == l;
  }

  ghost predicate InRun(l: seq<Event>) {
    exists n: nat :: l == Talking(n) || l == [Queued] + Talking(n)
  }

  lemma RunGoesOn(k: seq<Event>, e: Event)
    requires InRun(k)
    ensures e.Output? ==> InRun(k + [e])
    ensures e.Exited? ==> CompleteLife(k + [e])
  {
    var n: nat :| k == Talking(n) || k == [Queued] + Talking(n);
    if e.Output? {
      assert Talking(n + 1) == Talking(n) + [Output];
      assert k + [e] == Talking(n + 1) || k + [e] == [Queued] + Talking(n + 1);
    } else if e.Exited? {
      assert k + [e] == Ran(n, e.status) || k + [e] == [Queued] + Ran(n, e.status);
    }
  }

  lemma RunBegins()
    ensures InRun([Started]) && InRun([Queued, Started])
  {
    assert Talking(0) == [Started] && [Queued] + Talking(0) == [Queued, Started];
  }

  lemma {:induction false} ProgressShape(l: seq<Event>)
    ensures ProgressOf(l) == Fresh ==> l == []
    ensures ProgressOf(l) == InQueue ==> l == [Queued]
    ensures ProgressOf(l) == Running ==> InRun(l)
    ensures ProgressOf(l) == Done ==> CompleteLife(l)
  {
    if l != [] {
      var k, e := l[..|l| - 1], l[|l| - 1];
      assert l == k + [e];
      ProgressShape(k);
      RunBegins();
      if ProgressOf(k) == Running {
        RunGoesOn(k, e);
      }
    }
  }

  lemma {:induction false} TalkingAfter(pre: seq<Event>, n: nat)
    requires ProgressOf(pre) == Fresh || ProgressOf(pre) == InQueue
    ensures ProgressOf(pre + Talking(n)) == Running
  {
    if n == 0 {
      ProgressOne(pre, Started);
      assert Talking(0) == [Started];
    } else {
      TalkingAfter(pre, n - 1);
      ProgressOne(pre + Talking(n - 1), Output);
      OneMoreOutput(pre, n);
    }
  }

  lemma OneMoreOutput(pre: seq<Event>, n: nat)
    requires n > 0
    ensures pre + Talking(n) == pre + Talking(n - 1) + [Output]
  {
    assert Talking(n) == Talking(n - 1) + [Output];
  }

  lemma TalkingRuns(n: nat)
    ensures ProgressOf(Talking(n)) == Running && ProgressOf([Queued] + Talking(n)) == Running
  {
    ShortLogs();
    TalkingAfter([], n);
    TalkingAfter([Queued], n);
    assert [] + Talking(n) == Talking(n);
  }

  lemma RanIsDone(n: nat, status: ExitStatus)
    ensures ProgressOf(Ran(n, status)) == Done && ProgressOf([Queued] + Ran(n, status)) == Done
  {
    TalkingRuns(n);
    ProgressOne(Talking(n), Exited(status));
    ProgressOne([Queued] + Talking(n), Exited(status));
    assert [Queued] + Ran(n, status) == [Queued] + Talking(n) + [Exited(status)];
  }

  lemma ShortLives()
    ensures ProgressOf([Rejected]) == Done && ProgressOf([Queued, Rejected]) == Done &&
        ProgressOf([Queued, CANCELLED]) == Done
  {
    ShortLogs();
    ProgressOne([], Rejected);
    ProgressOne([Queued], Rejected);
    ProgressOne([Queued], CANCELLED);
    assert [] + [Rejected] == [Rejected];
    assert [Queued] + [Rejected] == [Queued, Rejected] && [Queued] + [CANCELLED] == [Queued, CANCELLED];
  }

  /** The automaton accepts exactly the lives of a job. */
  lemma DoneExactly(l: seq<Event>)
    ensures ProgressOf(l) == Done <==> CompleteLife(l)
  {
    ProgressShape(l);
    ShortLives();
    if n: nat, status :| l == Ran(n, status) || l == [Queued] + Ran(n, status) {
      RanIsDone(n, status);
    }
  }

  lemma {:induction false} BrokenStays(l: seq<Event>, rest: seq<Event>)
    requires ProgressOf(l) == Broken
    ensures ProgressOf(l + rest) == Broken
  {
    if rest == [] {
      assert l + rest == l;
    } else {
      var k, e := rest[..|rest| - 1], rest[|rest| - 1];
      BrokenStays(l, k);
      ProgressOne(l + k, e);
      assert l + rest == l + k + [e];
    }
  }

  /** It has not broken down exactly on the beginnings of lives. */
  lemma UnbrokenExactly(l: seq<Event>)
    ensures ProgressOf(l) != Broken <==> PartOfLife(l)
  {
    if ProgressOf(l) != Broken {
      UnbrokenIsPartOfLife(l);
    } else {
      forall rest ensures !CompleteLife(l + rest) {
        BrokenStays(l, rest);
        DoneExactly(l + rest);
      }
    }
  }

  /** Nothing follows a terminal event. */
  lemma {:induction false} TerminalIsLast(l: seq<Event>)
    ensures ProgressOf(l) != Broken ==> forall i :: 0 <= i < |l| - 1 ==> !IsTerminal(l[i])
    ensures ProgressOf(l) != Broken && ProgressOf(l) != Done ==> forall i :: 0 <= i < |l| ==> !IsTerminal(l[i])
  {
    if l != [] {
      TerminalIsLast(l[..|l| - 1]);
    }
  }

  lemma UnbrokenIsPartOfLife(l: seq<Event>)
    requires ProgressOf(l) != Broken
    ensures PartOfLife(l)
  {
    ProgressShape(l);
    match ProgressOf(l)
    case Fresh => RefusalCompletes(l);
    case InQueue => RefusalCompletes(l);
    case Running =>
      var n: nat :| l == Talking(n) || l == [Queued] + Talking(n);
      ExitCompletes(l, n);
    case Done =>
      assert l + [] == l;
      assert CompleteLife(l + []);
  }

  lemma RefusalCompletes(l: seq<Event>)
    requires l == [] || l == [Queued]
    ensures PartOfLife(l)
  {
    var whole := l + [Rejected];
    assert whole == [Rejected] || whole == [Queued, Rejected];
    assert CompleteLife(whole);
  }

  lemma ExitCompletes(l: seq<Event>, n: nat)
    requires l == Talking(n) || l == [Queued] + Talking(n)
    ensures PartOfLife(l)
  {
    var status := Code(0);
    var whole := l + [Exited(status)];
    assert whole == Ran(n, status) || whole == [Queued] + Ran(n, status);
    assert CompleteLife(whole);
  }

  /** What is written so far against where the connection and the supervisor are. */
  ghost predicate Lively(j: Job) {
    && (j.sent != [] ==> j.sent[0].Started? && !j.supervisor.NoSupervisor?)
    && (forall i :: 0 < i < |j.sent| ==> j.sent[i].Output? || j.sent[i].Exited?)
    && (j.supervisor == Supervising(false) ==> j.sent == [])
    && (j.supervisor == Supervising(true) || j.pumping ==> j.sent != [])
    && (j.supervisor.NoSupervisor? || j.phase.Forwarding? || j.phase.Over?)
    && match j.phase
       case Checking => j.log == []
       case Registering => j.log == []
       case Announcing => j.log == []
       case Waiting => j.log == [Queued]
       case Starting => j.log == [] || j.log == [Queued]
       case Removing(after) => WithdrawnLog(j.log, after)
       case Unregistering(_, after) => WithdrawnLog(j.log, after)
       case Probing(_, after) => WithdrawnLog(j.log, after)
       case Returning(after) => WithdrawnLog(j.log, after)
       case Waking(after) => WithdrawnLog(j.log, after)
       case Replying(e) => WithdrawnLog(j.log, Some(e))
       case Forwarding(read) =>
         && read <= |j.sent| && !j.supervisor.NoSupervisor?
         && (forall i :: 0 <= i < read ==> !IsTerminal(j.sent[i]))
         && ProgressOf(j.log) == (if read > 0 then Running else if j.log == [] then Fresh else InQueue)
       case Over => ProgressOf(j.log) != Broken
  }

  predicate WithdrawnLog(log: seq<Event>, after: Option<Event>) {
    && (log == [] || log == [Queued])
    && (after.None? || after == Some(Rejected) || (after == Some(CANCELLED) && log == [Queued]))
  }

  lemma ShortLogs()
    ensures ProgressOf([]) == Fresh && ProgressOf([Queued]) == InQueue
  {
    ProgressOne([], Queued);
    assert [] + [Queued] == [Queued];
  }

  lemma ForwardLively(j: Job, ok: bool)
    requires Lively(j) && LocalEnabled(j, Forward(ok))
    ensures Lively(LocalNext(j, Forward(ok)))
  {
    SentStep(j.log, j.phase.read, j.sent[j.phase.read]);
  }

  lemma SentStep(log: seq<Event>, read: nat, e: Event)
    requires ProgressOf(log) == (if read > 0 then Running else if log == [] then Fresh else InQueue)
    requires if read == 0 then e.Started? else e.Output? || e.Exited?
    ensures ProgressOf(log + [e]) == (if e.Exited? then Done else Running)
  {
    ProgressOne(log, e);
  }

  lemma ReplyLively(j: Job, ok: bool)
    requires Lively(j) && LocalEnabled(j, Reply(ok))
    ensures Lively(LocalNext(j, Reply(ok)))
  {
    ShortLogs();
    ProgressOne(j.log, j.phase.event);
  }

  lemma SupervisorLively(j: Job, a: LocalAction)
    requires Lively(j) && LocalEnabled(j, a)
    requires a.SuperviseStart? || a.SuperviseExit? || a.SuperviseCrash? || a.Pump? || a.PumpsEnd?
    ensures Lively(LocalNext(j, a))
  {
  }

  lemma ConnectionLively(j: Job, a: LocalAction)
    requires Lively(j) && LocalEnabled(j, a)
    requires a.FailCheck? || a.Announce? || a.Receive? || a.ReceiveDropped? || a.Withdraw? || a.Probe? ||
        a.Launch? || a.Abandon?
    ensures Lively(LocalNext(j, a))
  {
    ShortLogs();
  }

  lemma LocalLively(j: Job, a: LocalAction)
    requires Lively(j) && LocalEnabled(j, a)
    ensures Lively(LocalNext(j, a))
  {
    match a
    case Reply(ok) => ReplyLively(j, ok);
    case Forward(ok) => ForwardLively(j, ok);
    case FailCheck => ConnectionLively(j, a);
    case Announce(_) => ConnectionLively(j, a);
    case Receive => ConnectionLively(j, a);
    case ReceiveDropped => ConnectionLively(j, a);
    case Withdraw(_) => ConnectionLively(j, a);
    case Probe => ConnectionLively(j, a);
    case Launch(_) => ConnectionLively(j, a);
    case Abandon(_) => ConnectionLively(j, a);
    case _ => SupervisorLively(j, a);
  }

  ghost predicate AllLively(jobs: map<JobId, Job>) {
    forall id :: id in jobs ==> Lively(jobs[id])
  }

  lemma SharedLively(j: Job, j': Job)
    requires Lively(j) && SharedMove(j, j')
    ensures Lively(j')
  {
    ShortLogs();
  }

  lemma JobStaysLively(st: State, a: Action, id: JobId)
    requires AllLively(st.jobs) && Enabled(st, a) && st.nextId !in st.jobs && id in st.jobs
    ensures id in Next(st, a).jobs && Lively(Next(st, a).jobs[id])
  {
    StepMovesJob(st, a, id);
    if a.Local? && a.id == id {
      LocalLively(st.jobs[id], a.local);
    } else {
      SharedLively(st.jobs[id], Next(st, a).jobs[id]);
    }
  }

  lemma StepLively(st: State, a: Action)
    requires AllLively(st.jobs) && Enabled(st, a) && st.nextId !in st.jobs
    ensures AllLively(Next(st, a).jobs)
  {
    forall id | id in Next(st, a).jobs ensures Lively(Next(st, a).jobs[id]) {
      if id in st.jobs {
        JobStaysLively(st, a, id);
      } else {
        NewJobs(st, a, id);
      }
    }
  }

  lemma {:induction false} RunLively(limits: S.Limits, run: seq<State>, i: nat)
    requires IsRun(limits, run) && i < |run|
    ensures AllLively(run[i].jobs)
  {
    if i > 0 {
      RunLively(limits, run, i - 1);
      OneActiveJobAlways(limits, run, i - 1);
      assert StepAt(run, i - 1);
      LivelyStep(run[i - 1], run[i]);
    }
  }

  lemma LivelyStep(st: State, st': State)
    requires AllLively(st.jobs) && IdsBelow(st) && Steps(st, st')
    ensures AllLively(st'.jobs)
  {
    var a :| Enabled(st, a) && Next(st, a) == st';
    StepLively(st, a);
  }

  /** At every point of every run the events written for a job are the beginning of one life, and
      nothing follows a terminal event. */
  lemma EventsFormALife(limits: S.Limits, st: State, id: JobId)
    requires Reachable(limits, st) && id in st.jobs
    ensures PartOfLife(st.jobs[id].log)
    ensures forall i :: 0 <= i < |st.jobs[id].log| - 1 ==> !IsTerminal(st.jobs[id].log[i])
  {
    var run :| IsRun(limits, run) && run[|run| - 1] == st;
    RunLively(limits, run, |run| - 1);
    var j := st.jobs[id];
    assert Lively(j);
    ShortLogs();
    assert ProgressOf(j.log) != Broken;
    UnbrokenIsPartOfLife(j.log);
    TerminalIsLast(j.log);
  }

  // ------------------------------------------------------------------------------------------
  // When the life of a job is written to its end

  /** The supervisor is gone without having announced the exit. */
  ghost predicate Crashed(j: Job) {
    && (j.supervisor.Ended? || j.supervisor.Finished?)
    && forall i :: 0 <= i < |j.sent| ==> !j.sent[i].Exited?
  }

  lemma ForwardEnds(j: Job, ok: bool)
    requires Lively(j) && LocalEnabled(j, Forward(ok)) && LocalNext(j, Forward(ok)).phase.Over?
    ensures var j' := LocalNext(j, Forward(ok)); (ProgressOf(j'.log) == Done <==> ok) && !(ok && Crashed(j'))
  {
    SentStep(j.log, j.phase.read, j.sent[j.phase.read]);
  }

  lemma ReplyEnds(j: Job, ok: bool)
    requires Lively(j) && LocalEnabled(j, Reply(ok))
    ensures var j' := LocalNext(j, Reply(ok)); (ProgressOf(j'.log) == Done <==> ok) && !Crashed(j')
  {
    WithdrawnDone(j.log, j.phase.event);
  }

  lemma WithdrawnDone(log: seq<Event>, e: Event)
    requires WithdrawnLog(log, Some(e))
    ensures ProgressOf(log) != Done && ProgressOf(log + [e]) == Done
  {
    ShortLogs();
    ProgressOne(log, e);
  }

  /** A connection that is through with its job has written its life to the end, unless it closes with that step or
      the supervisor crashed. */
  lemma LocalEnds(j: Job, a: LocalAction)
    requires Lively(j) && LocalEnabled(j, a) && !j.phase.Over? && LocalNext(j, a).phase.Over?
    ensures ProgressOf(LocalNext(j, a).log) == Done <==> !Closes(j, a) && !Crashed(LocalNext(j, a))
  {
    ShortLogs();
    match a
    case Forward(ok) => ForwardEnds(j, ok);
    case Reply(ok) => ReplyEnds(j, ok);
    case _ =>
  }

  lemma OverBy(st: State, a: Action, id: JobId)
    requires Enabled(st, a) && id in st.jobs && st.nextId !in st.jobs && !st.jobs[id].phase.Over?
    requires id in Next(st, a).jobs && Next(st, a).jobs[id].phase.Over?
    ensures (a.Local? && a.id == id) || a == EndWake(ConnTask(id))
  {
    StepAfter(st, a, id);
    OnlyEndWake(st, a, id);
  }

  lemma OnlyEndWake(st: State, a: Action, id: JobId)
    requires Enabled(st, a) && id in st.jobs && !st.jobs[id].phase.Over? && JobAfter(st, a, id).phase.Over?
    ensures (a.Local? && a.id == id) || a == EndWake(ConnTask(id))
  {
  }

  lemma JobEnds(st: State, a: Action, id: JobId)
    requires Enabled(st, a) && id in st.jobs && !st.jobs[id].phase.Over? && Lively(st.jobs[id])
    requires st.jobs[id].conn in st.open
    requires (a.Local? && a.id == id) || a == EndWake(ConnTask(id))
    requires Next(st, a).jobs[id].phase.Over?
    ensures var j := Next(st, a).jobs[id];
      ProgressOf(j.log) == Done <==> j.conn in Next(st, a).open && !Crashed(j)
  {
    if a.Local? {
      LocalEnds(st.jobs[id], a.local);
      LocalStaysOver(st.jobs[id], a.local);
    } else {
      ShortLogs();
    }
  }

  lemma StepEnds(st: State, st': State, id: JobId)
    requires OneActiveJob(st) && IdsBelow(st) && AllLively(st.jobs) && Steps(st, st')
    requires id in st.jobs && !st.jobs[id].phase.Over? && id in st'.jobs && st'.jobs[id].phase.Over?
    ensures ProgressOf(st'.jobs[id].log) == Done <==> st'.jobs[id].conn in st'.open && !Crashed(st'.jobs[id])
  {
    var a :| Enabled(st, a) && Next(st, a) == st';
    OverBy(st, a, id);
    JobEnds(st, a, id);
  }

  /** When a connection is done with a job, the events written are a complete life if and only if the connection
      was not closed by that step - a failed write or the end of its input - and the supervisor did not crash. */
  lemma LifeCompletesExactly(limits: S.Limits, run: seq<State>, i: nat, id: JobId)
    requires IsRun(limits, run) && i + 1 < |run|
    requires id in run[i].jobs && !run[i].jobs[id].phase.Over? && id in run[i + 1].jobs &&
        run[i + 1].jobs[id].phase.Over?
    ensures var j := run[i + 1].jobs[id]; CompleteLife(j.log) <==> j.conn in run[i + 1].open && !Crashed(j)
  {
    RunLively(limits, run, i);
    OneActiveJobAlways(limits, run, i);
    assert StepAt(run, i);
    StepEnds(run[i], run[i + 1], id);
    DoneExactly(run[i + 1].jobs[id].log);
  }

  lemma LocalKeepsLog(j: Job, a: LocalAction)
    requires LocalEnabled(j, a) && j.phase.Over?
    ensures LocalNext(j, a).phase.Over? && LocalNext(j, a).log == j.log
  {
  }

  lemma StepKeepsLog(st: State, a: Action, id: JobId)
    requires Enabled(st, a) && id in st.jobs && st.nextId !in st.jobs && st.jobs[id].phase.Over?
    ensures id in Next(st, a).jobs && Next(st, a).jobs[id].phase.Over? && Next(st, a).jobs[id].log == st.jobs[id].log
  {
    StepMovesJob(st, a, id);
    if a.Local? && a.id == id {
      LocalKeepsLog(st.jobs[id], a.local);
    }
  }

  /** Nothing is written for a job once its connection is done with it. */
  lemma {:induction false} LogIsFinal(limits: S.Limits, run: seq<State>, i: nat, k: nat, id: JobId)
    requires IsRun(limits, run) && i <= k < |run| && id in run[i].jobs && run[i].jobs[id].phase.Over?
    ensures id in run[k].jobs && run[k].jobs[id].phase.Over? && run[k].jobs[id].log == run[i].jobs[id].log
  {
    if i < k {
      LogIsFinal(limits, run, i, k - 1, id);
      OneActiveJobAlways(limits, run, k - 1);
      assert StepAt(run, k - 1);
      var a :| Enabled(run[k - 1], a) && Next(run[k - 1], a) == run[k];
      StepKeepsLog(run[k - 1], a, id);
    }
  }
}
