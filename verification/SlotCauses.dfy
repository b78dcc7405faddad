/** Where the events a client is told come from: a launched job's are relayed in order, its exit status is the one its
    process ended with, and every other answer has its cause. */
module SlotCauses {
  import opened Options
  import opened JobEvents
  import S = Scheduling
  import opened SlotProtocol
  import opened SlotSafety
  import opened SlotTheorems

  /** Step `i` of the run was action `a`. */
  ghost predicate Did(run: seq<State>, i: nat, a: Action) {
    i + 1 < |run| && Enabled(run[i], a) && Next(run[i], a) == run[i + 1]
  }

  lemma RunIdsBelow(limits: S.Limits, run: seq<State>, i: nat)
    requires IsRun(limits, run) && i < |run|
    ensures IdsBelow(run[i])
  {
    OneActiveJobAlways(limits, run, i);
  }

  // ------------------------------------------------------------------------------------------
  // A launched job's events are relayed in order

  function Announced(log: seq<Event>): seq<Event> {
    if log != [] && log[0] == Queued then [Queued] else []
  }

  /** What is written for a launched job is, after `Queued` if that was written, the first of what its supervisor and
      its pumps sent; before the launch nothing is sent, and no exit is sent while the supervisor is at work. */
  ghost predicate Relays(j: Job) {
    && (j.supervisor.NoSupervisor? ==> j.sent == [] && Started !in j.log)
    && (!j.supervisor.NoSupervisor? ==> RelaysFirst(j))
    && (j.supervisor.Supervising? ==> forall e :: e in j.sent ==> !e.Exited?)
  }

  ghost predicate RelaysFirst(j: Job) {
    var n := |j.log| - |Announced(j.log)|;
    && n <= |j.sent| && j.log == Announced(j.log) + j.sent[..n]
    && (j.phase.Forwarding? ==> j.phase.read == n)
  }

  lemma ForwardRelays(j: Job, ok: bool)
    requires Lively(j) && Relays(j) && LocalEnabled(j, Forward(ok))
    ensures Relays(LocalNext(j, Forward(ok)))
  {
    assert j.sent[j.phase.read] != Queued;
    OneMoreRelayed(j.log, j.sent, j.phase.read);
  }

  lemma OneMoreRelayed(log: seq<Event>, sent: seq<Event>, n: nat)
    requires n < |sent| && log == Announced(log) + sent[..n] && sent[n] != Queued
    ensures var log' := log + [sent[n]]; Announced(log') == Announced(log) && log' == Announced(log) + sent[..n + 1]
  {
    assert sent[..n + 1] == sent[..n] + [sent[n]];
  }

  lemma SendRelays(j: Job, e: Event)
    requires Relays(j) && !j.supervisor.NoSupervisor?
    ensures RelaysFirst(j.(sent := j.sent + [e]))
  {
    var n := |j.log| - |Announced(j.log)|;
    assert (j.sent + [e])[..n] == j.sent[..n];
  }

  lemma LaunchRelays(j: Job)
    requires Lively(j) && Relays(j) && LocalEnabled(j, Launch(true))
    ensures Relays(LocalNext(j, Launch(true)))
  {
    assert j.log == Announced(j.log) + j.sent[..0];
  }

  lemma LocalRelays(j: Job, a: LocalAction)
    requires Lively(j) && Relays(j) && LocalEnabled(j, a)
    ensures Relays(LocalNext(j, a))
  {
    match a
    case Forward(ok) => ForwardRelays(j, ok);
    case Launch(ok) =>
      if ok {
        LaunchRelays(j);
      } else {
        SilentRelays(j, a);
      }
    case SuperviseStart => StartRelays(j);
    case SuperviseExit(status) => ExitRelays(j, status);
    case Pump => PumpRelays(j);
    case _ => SilentRelays(j, a);
  }

  lemma StartRelays(j: Job)
    requires Relays(j) && LocalEnabled(j, SuperviseStart)
    ensures Relays(LocalNext(j, SuperviseStart))
  {
    SendRelays(j, Started);
  }

  lemma ExitRelays(j: Job, status: ExitStatus)
    requires Relays(j) && LocalEnabled(j, SuperviseExit(status))
    ensures Relays(LocalNext(j, SuperviseExit(status)))
  {
    SendRelays(j, Exited(status));
  }

  lemma PumpRelays(j: Job)
    requires Lively(j) && Relays(j) && LocalEnabled(j, Pump)
    ensures Relays(LocalNext(j, Pump))
  {
    SendRelays(j, Output);
  }

  /** Steps that send nothing and relay nothing. */
  lemma SilentRelays(j: Job, a: LocalAction)
    requires Lively(j) && Relays(j) && LocalEnabled(j, a)
    requires !a.Forward? && a != Launch(true) && !a.SuperviseStart? && !a.SuperviseExit? && !a.Pump?
    ensures Relays(LocalNext(j, a))
  {
  }

  lemma SharedRelays(j: Job, j': Job)
    requires Relays(j) && SharedMove(j, j')
    ensures Relays(j')
  {
  }

  ghost predicate AllRelay(jobs: map<JobId, Job>) {
    forall id :: id in jobs ==> Relays(jobs[id])
  }

  lemma JobRelays(st: State, a: Action, id: JobId)
    requires AllLively(st.jobs) && AllRelay(st.jobs) && IdsBelow(st) && Enabled(st, a) && id in Next(st, a).jobs
    ensures Relays(Next(st, a).jobs[id])
  {
    if id in st.jobs {
      StepMovesJob(st, a, id);
      if a.Local? && a.id == id {
        LocalRelays(st.jobs[id], a.local);
      } else {
        SharedRelays(st.jobs[id], Next(st, a).jobs[id]);
      }
    } else {
      NewJobs(st, a, id);
    }
  }

  lemma StepRelays(st: State, st': State)
    requires AllLively(st.jobs) && AllRelay(st.jobs) && IdsBelow(st) && Steps(st, st')
    ensures AllRelay(st'.jobs)
  {
    var a :| Enabled(st, a) && Next(st, a) == st';
    forall id | id in st'.jobs ensures Relays(st'.jobs[id]) {
      JobRelays(st, a, id);
    }
  }

  lemma {:induction false} RunRelays(limits: S.Limits, run: seq<State>, i: nat)
    requires IsRun(limits, run) && i < |run|
    ensures AllRelay(run[i].jobs)
  {
    if i > 0 {
      RunRelays(limits, run, i - 1);
      RelaysNext(limits, run, i - 1);
    }
  }

  lemma RelaysNext(limits: S.Limits, run: seq<State>, i: nat)
    requires IsRun(limits, run) && i + 1 < |run| && AllRelay(run[i].jobs)
    ensures AllRelay(run[i + 1].jobs)
  {
    RunLively(limits, run, i);
    RunIdsBelow(limits, run, i);
    assert StepAt(run, i);
    StepRelays(run[i], run[i + 1]);
  }

  /** In every reachable state the client of a launched job has been told the first of what the job sent, in order. */
  lemma RelayedInOrder(limits: S.Limits, st: State, id: JobId)
    requires Reachable(limits, st) && id in st.jobs && !st.jobs[id].supervisor.NoSupervisor?
    ensures var j := st.jobs[id];
      exists n :: 0 <= n <= |j.sent| && (j.log == j.sent[..n] || j.log == [Queued] + j.sent[..n])
  {
    var run :| IsRun(limits, run) && run[|run| - 1] == st;
    RunRelays(limits, run, |run| - 1);
    var j := st.jobs[id];
    assert Relays(j);
    var n := |j.log| - |Announced(j.log)|;
    assert [] + j.sent[..n] == j.sent[..n];
  }

  // ------------------------------------------------------------------------------------------
  // The exit status

  /** The supervisor is done, and any exit it sent is `s`. */
  ghost predicate ExitedWith(j: Job, s: ExitStatus) {
    && (j.supervisor.Ended? || j.supervisor.Finished?) && (j.phase.Forwarding? || j.phase.Over?)
    && forall e :: e in j.sent && e.Exited? ==> e == Exited(s)
  }

  lemma ExitKept(st: State, a: Action, id: JobId, s: ExitStatus)
    requires IdsBelow(st) && Enabled(st, a) && id in st.jobs && ExitedWith(st.jobs[id], s)
    ensures id in Next(st, a).jobs && ExitedWith(Next(st, a).jobs[id], s)
  {
    StepMovesJob(st, a, id);
  }

  lemma ExitSent(st: State, id: JobId, s: ExitStatus)
    requires IdsBelow(st) && Enabled(st, Local(id, SuperviseExit(s))) && Relays(st.jobs[id]) && Lively(st.jobs[id])
    ensures var st' := Next(st, Local(id, SuperviseExit(s))); id in st'.jobs && ExitedWith(st'.jobs[id], s)
  {
    StepMovesJob(st, Local(id, SuperviseExit(s)), id);
  }

  lemma {:induction false} ExitStays(limits: S.Limits, run: seq<State>, i: nat, k: nat, id: JobId, s: ExitStatus)
    requires IsRun(limits, run) && i <= k < |run| && id in run[i].jobs && ExitedWith(run[i].jobs[id], s)
    ensures id in run[k].jobs && ExitedWith(run[k].jobs[id], s)
  {
    if i < k {
      ExitStays(limits, run, i, k - 1, id, s);
      ExitNext(limits, run, k - 1, id, s);
    }
  }

  lemma ExitNext(limits: S.Limits, run: seq<State>, i: nat, id: JobId, s: ExitStatus)
    requires IsRun(limits, run) && i + 1 < |run| && id in run[i].jobs && ExitedWith(run[i].jobs[id], s)
    ensures id in run[i + 1].jobs && ExitedWith(run[i + 1].jobs[id], s)
  {
    RunIdsBelow(limits, run, i);
    assert StepAt(run, i);
    ExitStep(run[i], run[i + 1], id, s);
  }

  lemma ExitStep(st: State, st': State, id: JobId, s: ExitStatus)
    requires IdsBelow(st) && Steps(st, st') && id in st.jobs && ExitedWith(st.jobs[id], s)
    ensures id in st'.jobs && ExitedWith(st'.jobs[id], s)
  {
    var a :| Enabled(st, a) && Next(st, a) == st';
    ExitKept(st, a, id, s);
  }

  /** The exit status the client is told is the one the job ended with. */
  lemma ExitStatusReported(limits: S.Limits, run: seq<State>, i: nat, k: nat, id: JobId, s: ExitStatus)
    requires IsRun(limits, run) && i < k < |run| && Did(run, i, Local(id, SuperviseExit(s)))
    ensures id in run[k].jobs
    ensures forall e :: e in run[k].jobs[id].log && e.Exited? ==> e == Exited(s)
  {
    RunRelays(limits, run, i);
    RunLively(limits, run, i);
    RunIdsBelow(limits, run, i);
    ExitSent(run[i], id, s);
    ExitStays(limits, run, i + 1, k, id, s);
    RunRelays(limits, run, k);
    WrittenWasSent(run[k].jobs[id]);
  }

  lemma WrittenWasSent(j: Job)
    requires Relays(j) && !j.supervisor.NoSupervisor?
    ensures forall e :: e in j.log && e != Queued ==> e in j.sent
  {
    var n := |j.log| - |Announced(j.log)|;
    assert forall e :: e in j.log ==> e in Announced(j.log) || e in j.sent[..n];
  }

  // ------------------------------------------------------------------------------------------
  // Answers the connection gives by itself

  /** The event the connection still has to write for a job that is not launched. */
  function Owed(p: Phase): Option<Event> {
    match p
    case Removing(after) => after
    case Unregistering(_, after) => after
    case Probing(_, after) => after
    case Returning(after) => after
    case Waking(after) => after
    case Replying(e) => Some(e)
    case _ => None
  }

  /** The causes of an answer: a queued job cancelled by its client, or a job refused because the check failed, the
      queue was full, or the process could not be started. */
  ghost predicate Causes(st: State, a: Action, id: JobId, e: Event) {
    || (e == Exited(Signal(15)) && a == Local(id, Withdraw(true)))
    || (e == Rejected && (a == Local(id, FailCheck) || a == Local(id, Launch(false)) || RefusedFull(st, a, id)))
  }

  ghost predicate RefusedFull(st: State, a: Action, id: JobId) {
    && a.Admit? && a.id == id && |st.sched.queue| >= st.sched.limits.queueLimit
    && !(st.sched.queue == [] && st.sched.running < st.sched.limits.maxJobs && a.mem > st.sched.limits.minMemAvailable)
  }

  /** The connection owes `e`, or has written it as its own answer. */
  ghost predicate Answers(j: Job, e: Event) {
    Owed(j.phase) == Some(e) || (j.supervisor.NoSupervisor? && IsTerminal(e) && e in j.log)
  }

  lemma LocalAnswers(j: Job, a: LocalAction, e: Event)
    requires Lively(j) && LocalEnabled(j, a) && !a.ReceiveDropped? && Answers(LocalNext(j, a), e) && !Answers(j, e)
    ensures
      || (e == Exited(Signal(15)) && a == Withdraw(true))
      || (e == Rejected && (a == FailCheck || a == Launch(false)))
  {
  }

  lemma AdmitAnswers(st: State, id: JobId, mem: nat, e: Event)
    requires Enabled(st, Admit(id, mem)) && Answers(JobAfter(st, Admit(id, mem), id), e) && !Answers(st.jobs[id], e)
    ensures e == Rejected && RefusedFull(st, Admit(id, mem), id)
  {
  }

  lemma SharedAnswers(st: State, a: Action, id: JobId, e: Event)
    requires Enabled(st, a) && id in st.jobs && Lively(st.jobs[id]) && !(a.Local? && a.id == id)
    requires !(a.Admit? && a.id == id) && Answers(JobAfter(st, a, id), e)
    ensures Answers(st.jobs[id], e)
  {
  }

  /** A job comes to owe or to have given an answer only by its cause. */
  lemma AnswerHasCause(st: State, a: Action, id: JobId, e: Event)
    requires IdsBelow(st) && Enabled(st, a) && a != Local(id, ReceiveDropped) && id in st.jobs && Lively(st.jobs[id])
    requires id in Next(st, a).jobs && Answers(Next(st, a).jobs[id], e) && !Answers(st.jobs[id], e)
    ensures Causes(st, a, id, e)
  {
    StepAfter(st, a, id);
    if a.Local? && a.id == id {
      LocalAnswers(st.jobs[id], a.local, e);
    } else if a.Admit? && a.id == id {
      AdmitAnswers(st, id, a.mem, e);
    } else {
      SharedAnswers(st, a, id, e);
    }
  }

  /** Some step before `k` caused the answer. */
  ghost predicate CausedBefore(run: seq<State>, k: nat, id: JobId, e: Event) {
    exists i: nat, a: Action :: i < k && Did(run, i, a) && Causes(run[i], a, id, e)
  }

  lemma CausedEarlier(run: seq<State>, k: nat, id: JobId, e: Event)
    requires CausedBefore(run, k, id, e)
    ensures CausedBefore(run, k + 1, id, e)
  {
    var i: nat, a: Action :| i < k && Did(run, i, a) && Causes(run[i], a, id, e);
    assert i < k + 1 && Did(run, i, a);
  }

  /** An answer of the next state is one of this state, or is caused by the step between them. */
  lemma AnswerStep(limits: S.Limits, run: seq<State>, i: nat, id: JobId, e: Event)
    requires IsRun(limits, run) && i + 1 < |run| && id in run[i + 1].jobs && Answers(run[i + 1].jobs[id], e)
    ensures (id in run[i].jobs && Answers(run[i].jobs[id], e)) || CausedBefore(run, i + 1, id, e)
  {
    RunLively(limits, run, i);
    RunIdsBelow(limits, run, i);
    var a := StepBy(limits, run, i, id);
    if id !in run[i].jobs {
      NewJobs(run[i], a, id);
    } else if !Answers(run[i].jobs[id], e) {
      AnswerHasCause(run[i], a, id, e);
      assert i < i + 1 && Did(run, i, a);
    }
  }

  lemma {:induction false} AnswersCaused(limits: S.Limits, run: seq<State>, k: nat, id: JobId, e: Event)
    requires IsRun(limits, run) && k < |run| && id in run[k].jobs && Answers(run[k].jobs[id], e)
    ensures CausedBefore(run, k, id, e)
  {
    if k > 0 {
      AnswerStep(limits, run, k - 1, id, e);
      if id in run[k - 1].jobs && Answers(run[k - 1].jobs[id], e) {
        AnswersCaused(limits, run, k - 1, id, e);
        CausedEarlier(run, k - 1, id, e);
      }
    }
  }

  /** The step is some action, and never the unreachable one. */
  lemma StepBy(limits: S.Limits, run: seq<State>, i: nat, id: JobId) returns (a: Action)
    requires IsRun(limits, run) && i + 1 < |run|
    ensures Did(run, i, a) && a != Local(id, ReceiveDropped)
  {
    assert StepAt(run, i);
    a :| Enabled(run[i], a) && Next(run[i], a) == run[i + 1];
    PrefixReaches(limits, run, i);
    NeverDroppedWhileWaiting(limits, run[i], id);
  }

  lemma PrefixReaches(limits: S.Limits, run: seq<State>, i: nat)
    requires IsRun(limits, run) && i < |run|
    ensures Reachable(limits, run[i])
  {
    var r := run[..i + 1];
    forall k: nat | k + 1 < |r| ensures StepAt(r, k) {
      assert StepAt(run, k);
    }
    assert IsRun(limits, r) && r[|r| - 1] == run[i];
  }

  /** The exit sent by a supervisor is that of its process. */
  lemma {:induction false} SentExitCaused(limits: S.Limits, run: seq<State>, k: nat, id: JobId, s: ExitStatus)
    requires IsRun(limits, run) && k < |run| && id in run[k].jobs && Exited(s) in run[k].jobs[id].sent
    ensures exists i: nat :: i < k && Did(run, i, Local(id, SuperviseExit(s)))
  {
    if k > 0 {
      RunIdsBelow(limits, run, k - 1);
      var a := StepBy(limits, run, k - 1, id);
      if id !in run[k - 1].jobs {
        NewJobs(run[k - 1], a, id);
      } else if Exited(s) in run[k - 1].jobs[id].sent {
        SentExitCaused(limits, run, k - 1, id, s);
        var i: nat :| i < k - 1 && Did(run, i, Local(id, SuperviseExit(s)));
        assert i < k;
      } else {
        SentByExit(run[k - 1], a, id, s);
      }
    }
  }

  lemma SentByExit(st: State, a: Action, id: JobId, s: ExitStatus)
    requires IdsBelow(st) && Enabled(st, a) && id in st.jobs && Exited(s) !in st.jobs[id].sent
    requires id in Next(st, a).jobs && Exited(s) in Next(st, a).jobs[id].sent
    ensures a == Local(id, SuperviseExit(s))
  {
    StepMovesJob(st, a, id);
  }

  /** Every terminal event a client is told has its cause: after `Started`, the end of the process with that status;
      without it, the client's own cancel or one of the three refusals. */
  lemma TerminalHasCause(limits: S.Limits, run: seq<State>, k: nat, id: JobId, e: Event)
    requires IsRun(limits, run) && k < |run| && id in run[k].jobs && e in run[k].jobs[id].log && IsTerminal(e)
    ensures Started in run[k].jobs[id].log ==>
      e.Exited? && exists i: nat :: i < k && Did(run, i, Local(id, SuperviseExit(e.status)))
    ensures Started !in run[k].jobs[id].log ==> CausedBefore(run, k, id, e)
  {
    var j := run[k].jobs[id];
    RunRelays(limits, run, k);
    RunLively(limits, run, k);
    assert Relays(j) && Lively(j);
    if j.supervisor.NoSupervisor? {
      AnswersCaused(limits, run, k, id, e);
    } else {
      WrittenWasSent(j);
      TerminalAfterStart(j, e);
      SentExitCaused(limits, run, k, id, e.status);
    }
  }

  lemma TerminalAfterStart(j: Job, e: Event)
    requires Relays(j) && Lively(j) && !j.supervisor.NoSupervisor? && e in j.log && IsTerminal(e) && e in j.sent
    ensures e.Exited? && Started in j.log
  {
    var n := |j.log| - |Announced(j.log)|;
    assert e in j.sent[..n];
    assert j.sent[..n][0] == Started;
    assert j.log[|Announced(j.log)|] == Started;
  }

  // ------------------------------------------------------------------------------------------
  // What is owed is what is written

  lemma CauseOwes(st: State, a: Action, id: JobId, e: Event)
    requires IdsBelow(st) && Enabled(st, a) && id in st.jobs && Causes(st, a, id, e)
    ensures id in Next(st, a).jobs && Owed(Next(st, a).jobs[id].phase) == Some(e)
  {
    StepAfter(st, a, id);
  }

  /** `e` is still owed, or the connection is done: it wrote exactly `e` more, or nothing because the write failed. */
  ghost predicate Settling(j: Job, e: Event, before: seq<Event>) {
    || (Owed(j.phase) == Some(e) && j.log == before)
    || (j.phase.Over? && (j.log == before + [e] || j.log == before))
  }

  lemma SettlingKept(st: State, a: Action, id: JobId, e: Event, before: seq<Event>)
    requires IdsBelow(st) && Enabled(st, a) && id in st.jobs && Lively(st.jobs[id]) && Settling(st.jobs[id], e, before)
    requires st.jobs[id].supervisor.NoSupervisor?
    ensures id in Next(st, a).jobs && Settling(Next(st, a).jobs[id], e, before)
    ensures Next(st, a).jobs[id].supervisor.NoSupervisor?
  {
    StepMovesJob(st, a, id);
    if a.Local? && a.id == id {
      LocalSettles(st.jobs[id], a.local, e, before);
    } else {
      SharedSettles(st.jobs[id], Next(st, a).jobs[id], e, before);
    }
  }

  lemma LocalSettles(j: Job, a: LocalAction, e: Event, before: seq<Event>)
    requires LocalEnabled(j, a) && Lively(j) && Settling(j, e, before) && j.supervisor.NoSupervisor?
    ensures Settling(LocalNext(j, a), e, before) && LocalNext(j, a).supervisor.NoSupervisor?
  {
  }

  lemma SharedSettles(j: Job, j': Job, e: Event, before: seq<Event>)
    requires SharedMove(j, j') && Settling(j, e, before) && j.supervisor.NoSupervisor?
    ensures Settling(j', e, before) && j'.supervisor.NoSupervisor?
  {
  }

  lemma SettlingStep(st: State, st': State, id: JobId, e: Event, before: seq<Event>)
    requires IdsBelow(st) && Steps(st, st') && id in st.jobs && Lively(st.jobs[id])
    requires Settling(st.jobs[id], e, before) && st.jobs[id].supervisor.NoSupervisor?
    ensures id in st'.jobs && Settling(st'.jobs[id], e, before) && st'.jobs[id].supervisor.NoSupervisor?
  {
    var a :| Enabled(st, a) && Next(st, a) == st';
    SettlingKept(st, a, id, e, before);
  }

  lemma {:induction false} SettlesFrom(limits: S.Limits, run: seq<State>, i: nat, k: nat, id: JobId, e: Event,
                                       before: seq<Event>)
    requires IsRun(limits, run) && i <= k < |run| && id in run[i].jobs
    requires Settling(run[i].jobs[id], e, before) && run[i].jobs[id].supervisor.NoSupervisor?
    ensures id in run[k].jobs && Settling(run[k].jobs[id], e, before) && run[k].jobs[id].supervisor.NoSupervisor?
  {
    if i < k {
      SettlesFrom(limits, run, i, k - 1, id, e, before);
      RunIdsBelow(limits, run, k - 1);
      RunLively(limits, run, k - 1);
      assert StepAt(run, k - 1);
      SettlingStep(run[k - 1], run[k], id, e, before);
    }
  }

  /** A cancelled queued job is answered `Exited(Signal(15))` and a refused one `Rejected`: after the cause nothing else
      is written for the job. */
  lemma CauseIsAnswered(limits: S.Limits, run: seq<State>, i: nat, k: nat, id: JobId, a: Action, e: Event)
    requires IsRun(limits, run) && i < k < |run| && Did(run, i, a) && id in run[i].jobs && Causes(run[i], a, id, e)
    ensures id in run[k].jobs && Settling(run[k].jobs[id], e, run[i].jobs[id].log)
  {
    RunIdsBelow(limits, run, i);
    RunLively(limits, run, i);
    CauseOwes(run[i], a, id, e);
    StepMovesJob(run[i], a, id);
    RunLively(limits, run, i + 1);
    assert Lively(run[i + 1].jobs[id]);
    SettlesFrom(limits, run, i + 1, k, id, e, run[i].jobs[id].log);
  }

  // ------------------------------------------------------------------------------------------
  // Output

  /** How many pieces of output the pumps of `id` passed on in the first `k` steps. */
  ghost function PumpSteps(run: seq<State>, k: nat, id: JobId): nat {
    if k == 0 then 0
    else PumpSteps(run, k - 1, id) + (if Did(run, k - 1, Local(id, Pump)) then 1 else 0)
  }

  ghost function Outputs(sent: seq<Event>): nat {
    multiset(sent)[Output]
  }

  lemma OutputStep(st: State, a: Action, id: JobId)
    requires IdsBelow(st) && Enabled(st, a) && id in st.jobs
    ensures id in Next(st, a).jobs
    ensures Outputs(Next(st, a).jobs[id].sent) == Outputs(st.jobs[id].sent) + (if a == Local(id, Pump) then 1 else 0)
  {
    StepMovesJob(st, a, id);
  }

  lemma PumpNext(limits: S.Limits, run: seq<State>, i: nat, id: JobId)
    requires IsRun(limits, run) && i + 1 < |run| && id in run[i].jobs
    ensures id in run[i + 1].jobs
    ensures Outputs(run[i + 1].jobs[id].sent) ==
      Outputs(run[i].jobs[id].sent) + (if Did(run, i, Local(id, Pump)) then 1 else 0)
  {
    RunIdsBelow(limits, run, i);
    var a := StepBy(limits, run, i, id);
    OutputStep(run[i], a, id);
    if Did(run, i, Local(id, Pump)) {
      OutputStep(run[i], Local(id, Pump), id);
    }
  }

  lemma {:induction false} NoPumpsYet(limits: S.Limits, run: seq<State>, k: nat, id: JobId)
    requires IsRun(limits, run) && k < |run| && id !in run[k].jobs
    ensures PumpSteps(run, k, id) == 0
  {
    if k > 0 {
      if id in run[k - 1].jobs {
        PumpNext(limits, run, k - 1, id);
      }
      NoPumpsYet(limits, run, k - 1, id);
    }
  }

  /** No output is lost or made up: a job has sent exactly as many pieces as its pumps passed on. */
  lemma {:induction false} OutputsCounted(limits: S.Limits, run: seq<State>, k: nat, id: JobId)
    requires IsRun(limits, run) && k < |run| && id in run[k].jobs
    ensures multiset(run[k].jobs[id].sent)[Output] == PumpSteps(run, k, id)
  {
    if k > 0 {
      if id in run[k - 1].jobs {
        OutputsCounted(limits, run, k - 1, id);
        PumpNext(limits, run, k - 1, id);
      } else {
        NoPumpsYet(limits, run, k - 1, id);
        var a := StepBy(limits, run, k - 1, id);
        NewJobs(run[k - 1], a, id);
      }
    }
  }

  // ------------------------------------------------------------------------------------------
  // Jobs queue with the priority they were submitted with

  lemma PriorityStep(st: State, a: Action, id: JobId)
    requires IdsBelow(st) && Enabled(st, a) && id in st.jobs
    ensures id in Next(st, a).jobs && Next(st, a).jobs[id].priority == st.jobs[id].priority
  {
    StepMovesJob(st, a, id);
  }

  /** An entry of the queue after a step was there before, or is the admitted job's. */
  lemma QueueStep(st: State, a: Action, e: S.Entry)
    requires Enabled(st, a) && e in Next(st, a).sched.queue && e !in st.sched.queue
    ensures a.Admit? && e.id == a.id && e.priority == st.jobs[a.id].priority
  {
    match a
    case Admit(id, mem) => AdmittedEntry(st.sched, id, st.jobs[id].priority, mem, e);
    case _ =>
  }

  lemma AdmittedEntry(s: S.State, id: JobId, p: S.Priority, mem: nat, e: S.Entry)
    requires e in S.Admit(s, id, p, mem).0.queue && e !in s.queue
    ensures e.id == id && e.priority == p
  {
  }

  ghost predicate QueuedByPriority(st: State) {
    forall e :: e in st.sched.queue ==> e.id in st.jobs && e.priority == st.jobs[e.id].priority
  }

  lemma QueuedByPriorityStep(st: State, a: Action, e: S.Entry)
    requires IdsBelow(st) && QueuedByPriority(st) && Enabled(st, a) && e in Next(st, a).sched.queue
    ensures e.id in Next(st, a).jobs && e.priority == Next(st, a).jobs[e.id].priority
  {
    if e !in st.sched.queue {
      QueueStep(st, a, e);
    }
    PriorityStep(st, a, e.id);
  }

  lemma {:induction false} RunQueuesByPriority(limits: S.Limits, run: seq<State>, k: nat)
    requires IsRun(limits, run) && k < |run|
    ensures QueuedByPriority(run[k])
  {
    if k > 0 {
      RunQueuesByPriority(limits, run, k - 1);
      RunIdsBelow(limits, run, k - 1);
      var a := StepBy(limits, run, k - 1, 0);
      forall e | e in run[k].sched.queue ensures e.id in run[k].jobs && e.priority == run[k].jobs[e.id].priority {
        QueuedByPriorityStep(run[k - 1], a, e);
      }
    }
  }

  lemma {:induction false} PriorityStays(limits: S.Limits, run: seq<State>, i: nat, k: nat, id: JobId)
    requires IsRun(limits, run) && i <= k < |run| && id in run[i].jobs
    ensures id in run[k].jobs && run[k].jobs[id].priority == run[i].jobs[id].priority
  {
    if i < k {
      PriorityStays(limits, run, i, k - 1, id);
      RunIdsBelow(limits, run, k - 1);
      var a := StepBy(limits, run, k - 1, id);
      PriorityStep(run[k - 1], a, id);
    }
  }

  /** However the tasks interleave, a submitted job queues under the priority it was submitted with, behind no job it
      outranks. */
  lemma QueuedAsSubmitted(limits: S.Limits, run: seq<State>, i: nat, k: nat, c: ConnId, p: S.Priority, x: nat)
    requires IsRun(limits, run) && i < k < |run| && Did(run, i, Submit(c, p))
    requires x < |run[k].sched.queue| && run[k].sched.queue[x].id == run[i].nextId
    ensures run[k].sched.queue[x].priority == p
    ensures forall y :: 0 <= y < x ==> !S.Outranks(p, run[k].sched.queue[y].priority)
  {
    PriorityStays(limits, run, i + 1, k, run[i].nextId);
    RunQueuesByPriority(limits, run, k);
    RunTracked(limits, run, k);
    var slot :| Tracks(run[k], slot);
    var q := run[k].sched.queue;
    assert q[x] in q;
    forall y | 0 <= y < x ensures !S.Outranks(p, q[y].priority) {
      assert S.Before(q[y], q[x]);
      S.RankIsOutranks(p, q[y].priority);
    }
  }
}
