/** `submit` of crates/rbs-client/src/shim.rs: one job streamed over a connection until a terminal event,
    with the user's interrupt forwarded. The script is what the connection and the signal handler deliver, in the
    order `select!` takes them; when it runs out the connection is closed. */
module Submission {
  import opened Options
  import opened Octets
  import J = JobEvents

  type JobId = nat
  type Bytes = seq<Byte>

  datatype Reason = Mismatch | Busy | Version | Internal

  datatype Event =
    | Queued(id: JobId, position: nat)
    | Started(id: JobId)
    | Stdout(id: JobId, bytes: Bytes)
    | Stderr(id: JobId, bytes: Bytes)
    | Exited(id: JobId, status: J.ExitStatus)
    | Rejected(id: JobId, reason: Reason)

  datatype Incoming = Interrupt | Received(event: Event) | ErrorMessage | OtherMessage | EndOfInput | ReceiveFailed

  datatype Script = Script(sendOk: bool, cancelOk: bool, incoming: seq<Incoming>)

  /** What the submission does to the outside. */
  datatype Effect = Out(bytes: Bytes) | Err(bytes: Bytes) | Cancel(id: JobId)

  datatype Outcome = Finished(status: J.ExitStatus) | ToolchainMismatch | Saturated | Refused | Transport

  /** The event without its payload. */
  function Kind(e: Event): J.Event {
    match e
    case Queued(_, _) => J.Queued
    case Started(_) => J.Started
    case Stdout(_, _) => J.Output
    case Stderr(_, _) => J.Output
    case Exited(_, status) => J.Exited(status)
    case Rejected(_, _) => J.Rejected
  }

  predicate IsLast(e: Event) {
    J.IsTerminal(Kind(e))
  }

  function Verdict(e: Event): Outcome
    requires IsLast(e)
  {
    match e
    case Exited(_, status) => Finished(status)
    case Rejected(_, Mismatch) => ToolchainMismatch
    case Rejected(_, Busy) => Saturated
    case Rejected(_, _) => Refused
  }

  // ------------------------------------------------------------------------------------------
  // What a submission must have done, in terms of the script it consumed

  function Relay(i: Incoming): seq<Effect> {
    match i
    case Received(Stdout(_, bytes)) => [Out(bytes)]
    case Received(Stderr(_, bytes)) => [Err(bytes)]
    case _ => []
  }

  /** The output that consumed input calls for. */
  function Relayed(consumed: seq<Incoming>): seq<Effect> {
    if consumed == [] then [] else Relayed(consumed[..|consumed| - 1]) + Relay(consumed[|consumed| - 1])
  }

  function Outputs(log: seq<Effect>): seq<Effect> {
    if log == [] then []
    else Outputs(log[..|log| - 1]) + (if log[|log| - 1].Cancel? then [] else [log[|log| - 1]])
  }

  function Cancels(log: seq<Effect>): seq<JobId> {
    if log == [] then []
    else Cancels(log[..|log| - 1]) + (if log[|log| - 1].Cancel? then [log[|log| - 1].id] else [])
  }

  /** Id of the first event. */
  function FirstId(consumed: seq<Incoming>): Option<JobId> {
    if consumed == [] then None
    else if consumed[0].Received? then Some(consumed[0].event.id)
    else FirstId(consumed[1..])
  }

  /** The interrupt is acted on once; it cancels the job the first event named. */
  function Interrupted(consumed: seq<Incoming>): seq<JobId> {
    if consumed == [] then []
    else
      var before := consumed[..|consumed| - 1];
      var cancelled := Interrupted(before);
      if consumed[|consumed| - 1].Interrupt? && cancelled == [] && FirstId(before).Some?
      then [FirstId(before).value] else cancelled
  }

  predicate Ends(i: Incoming) {
    match i
    case Received(e) => IsLast(e)
    case Interrupt => false
    case _ => true
  }

  /** Input after which the client keeps listening. */
  ghost predicate Open(consumed: seq<Incoming>) {
    && (forall k :: 0 <= k < |consumed| ==> !Ends(consumed[k]))
    && (forall k :: 0 <= k < |consumed| && consumed[k].Interrupt? ==> FirstId(consumed[..k]).Some?)
  }

  /** Log and outcome of a submission that consumed the first `n` inputs. */
  ghost predicate Faithful(script: Script, n: nat, log: seq<Effect>, outcome: Outcome) {
    && n <= |script.incoming|
    && (!script.sendOk ==> n == 0 && log == [] && outcome == Transport)
    && Outputs(log) == Relayed(script.incoming[..n])
    && Cancels(log) == Interrupted(script.incoming[..n])
    && (script.sendOk ==> StoppedRightly(script, n, outcome))
  }

  /** It listens exactly until a terminal event, a broken connection, or an interrupt that comes too early
      or cannot be forwarded. */
  ghost predicate StoppedRightly(script: Script, n: nat, outcome: Outcome)
    requires n <= |script.incoming|
  {
    && (n > 0 && !script.cancelOk ==> Interrupted(script.incoming[..n - 1]) == [])
    && if n > 0 && Open(script.incoming[..n - 1]) && !Open(script.incoming[..n]) then
         match script.incoming[n - 1]
         case Interrupt => outcome == Finished(J.Signal(2))
         case Received(e) => IsLast(e) && Tells(e, outcome)
         case _ => outcome == Transport
       else
         && outcome == Transport && Open(script.incoming[..n])
         && (n == |script.incoming| || (!script.cancelOk && Interrupted(script.incoming[..n]) != []))
  }

  /** What a terminal event means to the caller. */
  predicate Tells(e: Event, outcome: Outcome) {
    && (e.Exited? ==> outcome == Finished(e.status))
    && (e.Rejected? && e.reason.Mismatch? ==> outcome == ToolchainMismatch)
    && (e.Rejected? && e.reason.Busy? ==> outcome == Saturated)
    && (e.Rejected? && (e.reason.Version? || e.reason.Internal?) ==> outcome == Refused)
  }

  lemma RelayedSnoc(s: seq<Incoming>, n: nat)
    requires n < |s|
    ensures Relayed(s[..n + 1]) == Relayed(s[..n]) + Relay(s[n])
  {
    assert s[..n + 1][..n] == s[..n];
  }

  lemma LogSnoc(log: seq<Effect>, e: Effect)
    ensures Outputs(log + [e]) == Outputs(log) + if e.Cancel? then [] else [e]
    ensures Cancels(log + [e]) == Cancels(log) + if e.Cancel? then [e.id] else []
  {
    assert (log + [e])[..|log|] == log;
  }

  lemma {:induction false} FirstIdSnoc(consumed: seq<Incoming>, i: Incoming)
    ensures FirstId(consumed + [i]) ==
      if FirstId(consumed).Some? then FirstId(consumed) else if i.Received? then Some(i.event.id) else None
  {
    if consumed != [] {
      FirstIdSnoc(consumed[1..], i);
      assert (consumed + [i])[1..] == consumed[1..] + [i];
    }
  }

  lemma InterruptedSnoc(consumed: seq<Incoming>, i: Incoming)
    ensures Interrupted(consumed + [i]) ==
      if i.Interrupt? && Interrupted(consumed) == [] &&
          FirstId(consumed).Some? then [FirstId(consumed).value] else Interrupted(consumed)
  {
    assert (consumed + [i])[..|consumed|] == consumed;
  }

  lemma OpenSnoc(consumed: seq<Incoming>, i: Incoming)
    requires Open(consumed)
    ensures Open(consumed + [i]) <==> !Ends(i) && (i.Interrupt? ==> FirstId(consumed).Some?)
  {
    var all := consumed + [i];
    assert all[|consumed|] == i && all[..|consumed|] == consumed;
    forall k | 0 <= k < |consumed| ensures all[k] == consumed[k] && all[..k] == consumed[..k] {
    }
  }

  /** Cancels at most once, and only a job the server has named. */
  lemma {:induction false} CancelsOnce(consumed: seq<Incoming>)
    ensures |Interrupted(consumed)| <= 1
    ensures Interrupted(consumed) != [] ==> FirstId(consumed) == Some(Interrupted(consumed)[0])
  {
    if consumed != [] {
      var before, last := consumed[..|consumed| - 1], consumed[|consumed| - 1];
      CancelsOnce(before);
      assert consumed == before + [last];
      FirstIdSnoc(before, last);
    }
  }

  // ------------------------------------------------------------------------------------------
  // The loop

  ghost predicate Listening(s: seq<Incoming>, n: nat, log: seq<Effect>, id: Option<JobId>, cancelled: bool) {
    && n <= |s|
    && Open(s[..n])
    && Outputs(log) == Relayed(s[..n])
    && Cancels(log) == Interrupted(s[..n])
    && id == FirstId(s[..n])
    && (cancelled <==> Interrupted(s[..n]) != [])
  }

  /** Consuming one input: everything the specification tracks, one step further. */
  lemma Consume(s: seq<Incoming>, n: nat, log: seq<Effect>, id: Option<JobId>, cancelled: bool)
    requires n < |s| && Listening(s, n, log, id, cancelled)
    ensures Open(s[..n + 1]) <==> !Ends(s[n]) && (s[n].Interrupt? ==> id.Some?)
    ensures Relayed(s[..n + 1]) == Outputs(log) + Relay(s[n])
    ensures Interrupted(s[..n + 1]) == if s[n].Interrupt? && !cancelled && id.Some? then [id.value] else Cancels(log)
    ensures FirstId(s[..n + 1]) == if id.Some? then id else if s[n].Received? then Some(s[n].event.id) else None
  {
    assert s[..n + 1] == s[..n] + [s[n]];
    RelayedSnoc(s, n);
    OpenSnoc(s[..n], s[n]);
    InterruptedSnoc(s[..n], s[n]);
    FirstIdSnoc(s[..n], s[n]);
    CancelsOnce(s[..n]);
  }

  lemma Heard(s: seq<Incoming>, n: nat, log: seq<Effect>, id: Option<JobId>, cancelled: bool)
    requires n < |s| && Listening(s, n, log, id, cancelled)
    requires s[n].Received? && !IsLast(s[n].event)
    ensures Listening(s, n + 1, log + Relay(s[n]), if id.Some? then id else Some(s[n].event.id), cancelled)
  {
    Consume(s, n, log, id, cancelled);
    RelayLogged(log, s[n]);
  }

  lemma RelayLogged(log: seq<Effect>, i: Incoming)
    ensures Outputs(log + Relay(i)) == Outputs(log) + Relay(i) && Cancels(log + Relay(i)) == Cancels(log)
  {
    if Relay(i) == [] {
      assert log + Relay(i) == log;
    } else {
      var e := Relay(i)[0];
      LogSnoc(log, e);
      assert Relay(i) == [e];
    }
  }

  lemma Cancelling(s: seq<Incoming>, n: nat, log: seq<Effect>, id: Option<JobId>, cancelled: bool)
    requires n < |s| && Listening(s, n, log, id, cancelled)
    requires s[n].Interrupt? && id.Some?
    ensures Listening(s, n + 1, if cancelled then log else log + [Cancel(id.value)], id, true)
    ensures |Interrupted(s[..n + 1])| == 1
  {
    Consume(s, n, log, id, cancelled);
    LogSnoc(log, Cancel(id.value));
    CancelsOnce(s[..n]);
  }

  lemma Stopped(script: Script, n: nat, log: seq<Effect>, id: Option<JobId>, cancelled: bool, outcome: Outcome)
    requires script.sendOk && n < |script.incoming| && Listening(script.incoming, n, log, id, cancelled)
    requires !script.cancelOk ==> !cancelled
    requires match script.incoming[n]
      case Interrupt => id.None? && outcome == Finished(J.Signal(2))
      case Received(e) => IsLast(e) && outcome == Verdict(e)
      case _ => outcome == Transport
    ensures Faithful(script, n + 1, log, outcome)
  {
    Consume(script.incoming, n, log, id, cancelled);
    assert Relay(script.incoming[n]) == [];
  }

  lemma NotCancelled(script: Script, n: nat, log: seq<Effect>, id: Option<JobId>)
    requires script.sendOk && !script.cancelOk && n < |script.incoming| && Listening(script.incoming, n, log, id, false)
    requires script.incoming[n].Interrupt? && id.Some?
    ensures Faithful(script, n + 1, log + [Cancel(id.value)], Transport)
  {
    Cancelling(script.incoming, n, log, id, false);
  }

  lemma RanOut(script: Script, log: seq<Effect>, id: Option<JobId>, cancelled: bool)
    requires script.sendOk && Listening(script.incoming, |script.incoming|, log, id, cancelled)
    requires !script.cancelOk ==> !cancelled
    ensures Faithful(script, |script.incoming|, log, Transport)
  {
    var s := script.incoming;
    if s != [] {
      InterruptedEarlier(s, |s| - 1, |s|);
    }
  }

  lemma Silent(s: seq<Incoming>)
    ensures Listening(s, 0, [], None, false)
  {
  }

  method Submit(script: Script) returns (log: seq<Effect>, outcome: Outcome, n: nat)
    ensures Faithful(script, n, log, outcome)
  {
    if !script.sendOk {
      return [], Transport, 0;
    }
    var s := script.incoming;
    var id: Option<JobId> := None;
    var cancelled := false;
    var i := 0;
    log := [];
    Silent(s);
    while i < |s|
      invariant Listening(s, i, log, id, cancelled) && (!script.cancelOk ==> !cancelled)
    {
      n := i + 1;
      match s[i] {
        case Interrupt =>
          if !cancelled && id.None? {
            Stopped(script, i, log, id, cancelled, Finished(J.Signal(2)));
            return log, Finished(J.Signal(2)), n;
          }
          if cancelled {
            NamedWhenCancelled(s, i, log, id, cancelled);
          }
          Cancelling(s, i, log, id, cancelled);
          if !cancelled {
            if !script.cancelOk {
              NotCancelled(script, i, log, id);
              return log + [Cancel(id.value)], Transport, n;
            }
            cancelled := true;
            log := log + [Cancel(id.value)];
          }
        case Received(ev) =>
          if IsLast(ev) {
            Stopped(script, i, log, id, cancelled, Verdict(ev));
            return log, Verdict(ev), n;
          }
          Heard(s, i, log, id, cancelled);
          id := if id.None? then Some(ev.id) else id;
          log := log + Relay(s[i]);
        case _ =>
          Stopped(script, i, log, id, cancelled, Transport);
          return log, Transport, n;
      }
      i := i + 1;
    }
    RanOut(script, log, id, cancelled);
    outcome, n := Transport, i;
  }

  lemma NamedWhenCancelled(s: seq<Incoming>, n: nat, log: seq<Effect>, id: Option<JobId>, cancelled: bool)
    requires Listening(s, n, log, id, cancelled) && cancelled
    ensures id.Some?
  {
    CancelsOnce(s[..n]);
  }

  // ------------------------------------------------------------------------------------------
  // What a submission amounts to

  /** A cancel, once sent, stays sent. */
  lemma {:induction false} InterruptedEarlier(s: seq<Incoming>, m: nat, n: nat)
    requires m <= n <= |s|
    ensures Interrupted(s[..m]) != [] ==> Interrupted(s[..n]) != []
  {
    if m < n {
      InterruptedEarlier(s, m, n - 1);
      assert s[..n] == s[..n - 1] + [s[n - 1]];
      InterruptedSnoc(s[..n - 1], s[n - 1]);
    }
  }

  lemma OpenEarlier(s: seq<Incoming>, m: nat, n: nat)
    requires m <= n <= |s| && Open(s[..n])
    ensures Open(s[..m])
  {
    forall k | 0 <= k < m ensures s[..m][k] == s[..n][k] && s[..m][..k] == s[..n][..k] {
    }
  }

  /** `first` is the id of the first event among the inputs. */
  ghost predicate NamedFirst(s: seq<Incoming>, n: nat, first: JobId) {
    exists j :: 0 <= j < n <= |s| && FirstEventAt(s, j) && s[j].event.id == first
  }

  ghost predicate FirstEventAt(s: seq<Incoming>, j: nat)
    requires j < |s|
  {
    s[j].Received? && forall i :: 0 <= i < j ==> !s[i].Received?
  }

  lemma {:induction false} FirstIdExactly(s: seq<Incoming>) returns (j: nat)
    requires FirstId(s).Some?
    ensures j < |s| && FirstEventAt(s, j) && FirstId(s) == Some(s[j].event.id)
  {
    if s[0].Received? {
      j := 0;
    } else {
      j := FirstIdExactly(s[1..]);
      j := j + 1;
    }
  }

  /** A cancel goes out at most once, for the job the first event named, and nothing is read past a terminal event or
      past a cancel that could not be sent. */
  lemma SubmissionDiscipline(script: Script, n: nat, log: seq<Effect>, outcome: Outcome)
    requires Faithful(script, n, log, outcome)
    ensures |Cancels(log)| <= 1
    ensures Cancels(log) != [] ==> NamedFirst(script.incoming, n, Cancels(log)[0])
    ensures forall k :: 0 <= k < n - 1 ==> !Ends(script.incoming[k])
    ensures n > 0 && !script.cancelOk ==> Interrupted(script.incoming[..n - 1]) == []
  {
    var s := script.incoming;
    CancelsOnce(s[..n]);
    if Cancels(log) != [] {
      var j := FirstIdExactly(s[..n]);
      assert forall i :: 0 <= i <= j ==> s[..n][i] == s[i];
      assert FirstEventAt(s, j);
    }
    forall k | 0 <= k < n - 1 ensures !Ends(s[k]) {
      if Open(s[..n - 1]) {
        assert s[..n - 1][k] == s[k];
      } else {
        assert s[..n][k] == s[k];
      }
    }
  }

  lemma ListenedBefore(script: Script, n: nat, outcome: Outcome)
    requires 0 < n <= |script.incoming| && StoppedRightly(script, n, outcome)
    ensures Open(script.incoming[..n - 1])
  {
    if Open(script.incoming[..n]) {
      OpenEarlier(script.incoming, n - 1, n);
    }
  }

  lemma NotBefore(script: Script, m: nat, n: nat, log: seq<Effect>, log': seq<Effect>, outcome: Outcome,
                  outcome': Outcome)
    requires Faithful(script, m, log, outcome) && Faithful(script, n, log', outcome')
    ensures m >= n
  {
    var s := script.incoming;
    if m < n {
      ListenedBefore(script, n, outcome');
      OpenEarlier(s, m, n - 1);
      InterruptedEarlier(s, m, n - 1);
    }
  }

  /** The script decides how much of it is consumed, what is written and which job is cancelled. */
  lemma ConsumedOnce(script: Script, m: nat, n: nat, log: seq<Effect>, log': seq<Effect>, outcome: Outcome,
                     outcome': Outcome)
    requires Faithful(script, m, log, outcome) && Faithful(script, n, log', outcome')
    ensures m == n && Outputs(log) == Outputs(log') && Cancels(log) == Cancels(log')
  {
    NotBefore(script, m, n, log, log', outcome, outcome');
    NotBefore(script, n, m, log', log, outcome', outcome);
  }

  /** The outcome told from the last input alone. */
  lemma OutcomeExactly(script: Script, n: nat, log: seq<Effect>, outcome: Outcome)
    requires Faithful(script, n, log, outcome) && script.sendOk && n > 0
    ensures var last := script.incoming[n - 1]; var rejected := last.Received? && last.event.Rejected?;
      && (last.Received? && last.event.Exited? ==> outcome == Finished(last.event.status))
      && (outcome.ToolchainMismatch? <==> rejected && last.event.reason.Mismatch?)
      && (outcome.Saturated? <==> rejected && last.event.reason.Busy?)
      && (outcome.Refused? <==> rejected && (last.event.reason.Version? || last.event.reason.Internal?))
      && (outcome.Finished? <==>
            || (last.Received? && last.event.Exited?)
            || (last.Interrupt? && FirstId(script.incoming[..n]).None?))
  {
    var s := script.incoming;
    ListenedBefore(script, n, outcome);
    assert s[..n] == s[..n - 1] + [s[n - 1]];
    OpenSnoc(s[..n - 1], s[n - 1]);
    FirstIdSnoc(s[..n - 1], s[n - 1]);
  }

  // ------------------------------------------------------------------------------------------
  // Standard output and standard error apart

  function OutBytes(log: seq<Effect>): seq<Bytes> {
    if log == [] then []
    else OutBytes(log[..|log| - 1]) + (if log[|log| - 1].Out? then [log[|log| - 1].bytes] else [])
  }

  function ErrBytes(log: seq<Effect>): seq<Bytes> {
    if log == [] then []
    else ErrBytes(log[..|log| - 1]) + (if log[|log| - 1].Err? then [log[|log| - 1].bytes] else [])
  }

  function StdoutBytes(consumed: seq<Incoming>): seq<Bytes> {
    if consumed == [] then []
    else
      var last := consumed[|consumed| - 1];
      StdoutBytes(consumed[..|consumed| - 1]) +
        if last.Received? && last.event.Stdout? then [last.event.bytes] else []
  }

  function StderrBytes(consumed: seq<Incoming>): seq<Bytes> {
    if consumed == [] then []
    else
      var last := consumed[|consumed| - 1];
      StderrBytes(consumed[..|consumed| - 1]) +
        if last.Received? && last.event.Stderr? then [last.event.bytes] else []
  }

  lemma {:induction false} OutputsApart(log: seq<Effect>)
    ensures OutBytes(Outputs(log)) == OutBytes(log) && ErrBytes(Outputs(log)) == ErrBytes(log)
  {
    if log != [] {
      var front, e := log[..|log| - 1], log[|log| - 1];
      OutputsApart(front);
      if e.Cancel? {
        assert Outputs(front) + [] == Outputs(front);
      } else {
        BytesSnoc(Outputs(front), e);
      }
    }
  }

  lemma BytesSnoc(log: seq<Effect>, e: Effect)
    ensures OutBytes(log + [e]) == OutBytes(log) + if e.Out? then [e.bytes] else []
    ensures ErrBytes(log + [e]) == ErrBytes(log) + if e.Err? then [e.bytes] else []
  {
    assert (log + [e])[..|log|] == log;
  }

  lemma {:induction false} RelayedApart(consumed: seq<Incoming>)
    ensures OutBytes(Relayed(consumed)) == StdoutBytes(consumed) && ErrBytes(Relayed(consumed)) == StderrBytes(consumed)
  {
    if consumed != [] {
      var front, last := consumed[..|consumed| - 1], consumed[|consumed| - 1];
      RelayedApart(front);
      if Relay(last) == [] {
        assert Relayed(front) + [] == Relayed(front);
      } else {
        assert Relay(last) == [Relay(last)[0]];
        BytesSnoc(Relayed(front), Relay(last)[0]);
      }
    }
  }

  /** The job's standard output goes to standard output and its standard error to standard error, byte for byte and in
      order. */
  lemma StreamsKeptApart(script: Script, n: nat, log: seq<Effect>, outcome: Outcome)
    requires Faithful(script, n, log, outcome)
    ensures OutBytes(log) == StdoutBytes(script.incoming[..n]) && ErrBytes(log) == StderrBytes(script.incoming[..n])
  {
    OutputsApart(log);
    RelayedApart(script.incoming[..n]);
  }
}
