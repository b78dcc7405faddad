/** The slot protocol of the job server: crates/rbs-server/src/socket.rs with the supervisors of
    crates/rbs-server/src/runner.rs.

    Any number of connections, job supervisors and the two-second poller share the scheduler and
    the `waiters` map, each behind its own lock. One action is one lock acquisition, one channel
    operation or one write; actions of different tasks interleave freely. A reading of the free
    memory is a parameter of the action that uses it. */
module SlotProtocol {
  import opened Options
  import opened JobEvents
  import S = Scheduling

  type JobId = S.JobId
  type ConnId = nat

  const CANCELLED := Exited(Signal(15))

  /** Where the connection stands in handling its job. `after` is the event to write once a
      withdrawal is done, none when the client is gone. */
  datatype Phase =
    | Checking
    | Registering
    | Announcing
    | Waiting
    | Removing(after: Option<Event>)
    | Unregistering(wasQueued: bool, after: Option<Event>)
    | Probing(wasQueued: bool, after: Option<Event>)
    | Starting
    | Returning(after: Option<Event>)
    | Waking(after: Option<Event>)
    | Replying(event: Event)
    | Forwarding(read: nat)
    | Over

  /** The one-shot channel of a queued job; `Open` while its sender is in `waiters`. */
  datatype Mail = NoMail | Open | Sent | Taken | Dropped

  datatype Supervisor = NoSupervisor | Supervising(started: bool) | Ended | Finished

  datatype Job = Job(conn: ConnId, priority: S.Priority, phase: Phase, mail: Mail,
                     supervisor: Supervisor, pumping: bool, sent: seq<Event>, log: seq<Event>)

  /** A task inside `wake`. */
  datatype Task = ConnTask(id: JobId) | SupervisorTask(id: JobId) | PollTask

  datatype Frame = Frame(released: seq<JobId>, orphaned: seq<JobId>, mem: nat)

  /** `grants` and `refunds` record which job's slot each increment and decrement of `running` is. */
  datatype State = State(sched: S.State, waiters: set<JobId>, frames: map<Task, Frame>, jobs: map<JobId, Job>,
                         open: set<ConnId>, nextId: JobId, grants: multiset<JobId>, refunds: multiset<JobId>)

  function Init(limits: S.Limits): State {
    State(S.Start(limits), {}, map[], map[], {}, 1, multiset{}, multiset{})
  }

  // ------------------------------------------------------------------------------------------
  // Actions on one job alone: its connection, its supervisor or its output pumps move

  datatype LocalAction =
    | FailCheck
    | Announce(ok: bool)
    | Receive
    | ReceiveDropped
    | Withdraw(reply: bool)
    | Probe
    | Launch(ok: bool)
    | Reply(ok: bool)
    | Forward(ok: bool)
    | Abandon(hangup: bool)
    | SuperviseStart
    | SuperviseExit(status: ExitStatus)
    | SuperviseCrash
    | Pump
    | PumpsEnd

  predicate LocalEnabled(j: Job, a: LocalAction) {
    match a
    case FailCheck => j.phase.Checking?
    case Announce(_) => j.phase.Announcing?
    case Receive => j.phase.Waiting? && j.mail.Sent?
    case ReceiveDropped => j.phase.Waiting? && j.mail.Dropped?
    case Withdraw(_) => j.phase.Waiting?
    case Probe => j.phase.Probing?
    case Launch(_) => j.phase.Starting?
    case Reply(_) => j.phase.Replying?
    case Forward(_) => j.phase.Forwarding? && j.phase.read < |j.sent|
    case Abandon(hangup) =>
      // end of input, or the event channel closed without a terminal event
      && j.phase.Forwarding?
      && (hangup || (j.phase.read >= |j.sent| && !j.supervisor.Supervising? && !j.pumping))
    case SuperviseStart => j.supervisor == Supervising(false)
    case SuperviseExit(_) => j.supervisor == Supervising(true)
    case SuperviseCrash => j.supervisor.Supervising?
    case Pump => j.pumping
    case PumpsEnd => j.pumping
  }

  function PhaseAfter(after: Option<Event>): Phase {
    match after
    case Some(e) => Replying(e)
    case None => Over
  }

  function LocalNext(j: Job, a: LocalAction): Job
    requires LocalEnabled(j, a)
  {
    match a
    case FailCheck => j.(phase := Replying(Rejected))
    case Announce(ok) =>
      if ok then j.(phase := Waiting, log := j.log + [Queued]) else j.(phase := Removing(None))
    case Receive => j.(phase := Starting, mail := Taken)
    case ReceiveDropped => j.(phase := Replying(Rejected))
    case Withdraw(reply) => j.(phase := Removing(if reply then Some(CANCELLED) else None))
    case Probe =>
      if !j.phase.wasQueued && j.mail.Sent? then j.(phase := Returning(j.phase.after), mail := Taken)
      else j.(phase := PhaseAfter(j.phase.after))
    case Launch(ok) =>
      if ok then j.(phase := Forwarding(0), supervisor := Supervising(false))
      else j.(phase := Returning(Some(Rejected)))
    case Reply(ok) => if ok then j.(phase := Over, log := j.log + [j.phase.event]) else j.(phase := Over)
    case Forward(ok) =>
      var e := j.sent[j.phase.read];
      if !ok then j.(phase := Over)
      else j.(log := j.log + [e], phase := if IsTerminal(e) then Over else Forwarding(j.phase.read + 1))
    case Abandon(_) => j.(phase := Over)
    case SuperviseStart => j.(supervisor := Supervising(true), pumping := true, sent := j.sent + [Started])
    case SuperviseExit(status) => j.(supervisor := Ended, sent := j.sent + [Exited(status)])
    case SuperviseCrash => j.(supervisor := Ended)
    case Pump => j.(sent := j.sent + [Output])
    case PumpsEnd => j.(pumping := false)
  }

  /** The connection ends with this action: end of input or a failed write. */
  predicate Closes(j: Job, a: LocalAction)
    requires LocalEnabled(j, a)
  {
    match a
    case Probe => LocalNext(j, a).phase.Over?
    case Reply(ok) => !ok
    case Forward(ok) => !ok
    case Abandon(hangup) => hangup
    case _ => false
  }

  // ------------------------------------------------------------------------------------------
  // Actions on the shared structures

  datatype Action =
    | Connect(c: ConnId)
    | Hangup(c: ConnId)
    | Submit(c: ConnId, priority: S.Priority)
    | Local(id: JobId, local: LocalAction)
    | Admit(id: JobId, mem: nat)
    | Register(id: JobId)
    | Remove(id: JobId)
    | Unregister(id: JobId)
    | Return(id: JobId, mem: nat)
    | SuperviseFinish(id: JobId, mem: nat)
    | Tick(mem: nat)
    | Deliver(t: Task)
    | ReturnOrphan(t: Task)
    | EndWake(t: Task)

  predicate Idle(st: State, c: ConnId) {
    forall id :: id in st.jobs && st.jobs[id].conn == c ==> st.jobs[id].phase.Over?
  }

  predicate Enabled(st: State, a: Action) {
    match a
    case Connect(c) => c !in st.open
    case Hangup(c) => c in st.open && Idle(st, c)
    case Submit(c, _) => c in st.open && Idle(st, c)
    case Local(id, local) => id in st.jobs && LocalEnabled(st.jobs[id], local)
    case Admit(id, _) => id in st.jobs && st.jobs[id].phase.Checking?
    case Register(id) => id in st.jobs && st.jobs[id].phase.Registering?
    case Remove(id) => id in st.jobs && st.jobs[id].phase.Removing?
    case Unregister(id) => id in st.jobs && st.jobs[id].phase.Unregistering?
    case Return(id, _) => id in st.jobs && st.jobs[id].phase.Returning?
    case SuperviseFinish(id, _) => id in st.jobs && st.jobs[id].supervisor.Ended?
    case Tick(_) => PollTask !in st.frames
    case Deliver(t) => t in st.frames && st.frames[t].orphaned == [] && st.frames[t].released != []
    case ReturnOrphan(t) => t in st.frames && st.frames[t].orphaned != []
    case EndWake(t) =>
      && t in st.frames && st.frames[t].orphaned == [] && st.frames[t].released == []
      && (t.ConnTask? ==> t.id in st.jobs && st.jobs[t.id].phase.Waking?)
  }

  function SetJob(st: State, id: JobId, j: Job): State {
    st.(jobs := st.jobs[id := j])
  }

  function Close(st: State, c: ConnId, closing: bool): State {
    if closing then st.(open := st.open - {c}) else st
  }

  /** `Scheduler::poll` under the lock; the released jobs go to the task that polled. */
  function PollInto(st: State, t: Task, mem: nat): State
    requires t in st.frames
  {
    var released := S.Ids(S.Released(st.sched, mem));
    st.(sched := S.Poll(st.sched, mem),
        frames := st.frames[t := st.frames[t].(released := st.frames[t].released + released)],
        grants := st.grants + multiset(released))
  }

  /** `Scheduler::finish` under the lock, giving up the slot of `id`. */
  function FinishInto(st: State, t: Task, id: JobId, mem: nat): State
    requires t in st.frames
  {
    PollInto(st.(sched := S.FreeSlot(st.sched), refunds := st.refunds + multiset{id}), t, mem)
  }

  function Enter(st: State, t: Task, mem: nat): State {
    st.(frames := st.frames[t := Frame([], [], mem)])
  }

  function Orphans(released: seq<JobId>, waiters: set<JobId>): (r: seq<JobId>)
    ensures forall id :: id in r <==> id in released && id !in waiters
  {
    if released == [] then []
    else (if released[0] in waiters then [] else [released[0]]) + Orphans(released[1..], waiters)
  }

  /** The part of `wake` under the waiters lock. */
  function DeliverAll(st: State, t: Task): State
    requires t in st.frames
  {
    var f := st.frames[t];
    var woken := set id | id in f.released && id in st.waiters;
    st.(waiters := st.waiters - woken,
        jobs := map id | id in st.jobs ::
                  if id in woken then st.jobs[id].(mail := Sent) else st.jobs[id],
        frames := st.frames[t := f.(released := [], orphaned := Orphans(f.released, st.waiters))])
  }

  function Decided(st: State, id: JobId, sched: S.State, d: S.Decision): State
    requires id in st.jobs
  {
    var j := st.jobs[id];
    match d
    case Accept => SetJob(st.(sched := sched, grants := st.grants + multiset{id}), id, j.(phase := Starting))
    case Queue(_) => SetJob(st.(sched := sched), id, j.(phase := Registering))
    case Saturated => SetJob(st.(sched := sched), id, j.(phase := Replying(Rejected)))
  }

  function AdmitNext(st: State, id: JobId, mem: nat): State
    requires id in st.jobs
  {
    var (sched, d) := S.Admit(st.sched, id, st.jobs[id].priority, mem);
    Decided(st, id, sched, d)
  }

  function RemoveNext(st: State, id: JobId): State
    requires id in st.jobs && st.jobs[id].phase.Removing?
  {
    var j := st.jobs[id];
    var (sched, found) := S.RemoveQueued(st.sched, id);
    SetJob(st.(sched := sched), id, j.(phase := Unregistering(found, j.phase.after)))
  }

  function UnregisterNext(st: State, id: JobId): State
    requires id in st.jobs && st.jobs[id].phase.Unregistering?
  {
    var j := st.jobs[id];
    SetJob(st.(waiters := st.waiters - {id}), id,
           j.(phase := Probing(j.phase.wasQueued, j.phase.after), mail := if id in st.waiters then Dropped else j.mail))
  }

  function EndWakeNext(st: State, t: Task): State
    requires t.ConnTask? ==> t.id in st.jobs && st.jobs[t.id].phase.Waking?
  {
    var st' := st.(frames := st.frames - {t});
    if t.ConnTask? then
      var j := st.jobs[t.id];
      Close(SetJob(st', t.id, j.(phase := PhaseAfter(j.phase.after))), j.conn, j.phase.after.None?)
    else st'
  }

  function Next(st: State, a: Action): State
    requires Enabled(st, a)
  {
    match a
    case Connect(c) => st.(open := st.open + {c})
    case Hangup(c) => Close(st, c, true)
    case Submit(c, p) =>
      SetJob(st.(nextId := st.nextId + 1), st.nextId, Job(c, p, Checking, NoMail, NoSupervisor, false, [], []))
    case Local(id, local) =>
      Close(SetJob(st, id, LocalNext(st.jobs[id], local)), st.jobs[id].conn, Closes(st.jobs[id], local))
    case Admit(id, mem) => AdmitNext(st, id, mem)
    case Register(id) =>
      SetJob(st.(waiters := st.waiters + {id}), id, st.jobs[id].(phase := Announcing, mail := Open))
    case Remove(id) => RemoveNext(st, id)
    case Unregister(id) => UnregisterNext(st, id)
    case Return(id, mem) =>
      var j := st.jobs[id];
      FinishInto(SetJob(Enter(st, ConnTask(id), mem), id, j.(phase := Waking(j.phase.after))), ConnTask(id), id, mem)
    case SuperviseFinish(id, mem) =>
      FinishInto(SetJob(Enter(st, SupervisorTask(id), mem), id, st.jobs[id].(supervisor := Finished)),
                 SupervisorTask(id), id, mem)
    case Tick(mem) => PollInto(Enter(st, PollTask, mem), PollTask, mem)
    case Deliver(t) => DeliverAll(st, t)
    case ReturnOrphan(t) =>
      var f := st.frames[t];
      FinishInto(st.(frames := st.frames[t := f.(orphaned := f.orphaned[1..])]), t, f.orphaned[0], f.mem)
    case EndWake(t) => EndWakeNext(st, t)
  }

  // ------------------------------------------------------------------------------------------
  // Runs

  ghost predicate Steps(st: State, st': State) {
    exists a :: Enabled(st, a) && Next(st, a) == st'
  }

  ghost predicate StepAt(run: seq<State>, i: nat)
    requires i + 1 < |run|
  {
    Steps(run[i], run[i + 1])
  }

  ghost predicate IsRun(limits: S.Limits, run: seq<State>) {
    && run != [] && run[0] == Init(limits)
    && forall i: nat :: i + 1 < |run| ==> StepAt(run, i)
  }

  ghost predicate Reachable(limits: S.Limits, st: State) {
    exists run :: IsRun(limits, run) && run[|run| - 1] == st
  }
}
