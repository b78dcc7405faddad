/** The shim's run (crates/rbs-client/src/shim.rs): policy, probe, selection, and the walk down the chain of
    backends. Every hook answers as it likes, as a function of everything that happened before; what the run does is
    its trace. */
module Shim {
  import opened Options
  import opened Backends
  import B = Submission
  import J = JobEvents

  // ------------------------------------------------------------------------------------------
  // Input and policy

  datatype Input = Input(mode: Mode, argv: seq<string>, override: Option<string>, pinned: bool, cargoPolicy: bool,
                         touch: bool, localSubcommands: seq<string>, pullAndLink: bool, cfg: Config)

  const COMPILING := ["bench", "build", "check", "clippy", "doc", "run", "test"]

  const QUERIES := ["metadata", "locate-project", "pkgid", "tree", "search", "login", "logout", "version", "help",
    "read-manifest", "verify-project", "report", "config", "info"]

  const EDITS := ["install", "uninstall", "new", "init", "add", "remove", "rm", "update", "fetch", "generate-lockfile",
    "vendor", "publish", "package", "owner", "yank", "fmt", "clean"]

  const PASSTHROUGH := QUERIES + EDITS

  function Subcommand(input: Input): Option<string> {
    var start := if input.override.Some? then 2 else 1;
    if start < |input.argv| then Some(input.argv[start]) else None
  }

  predicate HardMismatch(input: Input) {
    input.pinned || input.override.Some?
  }

  predicate WantsTouch(input: Input) {
    var sub := Subcommand(input);
    input.cargoPolicy && input.touch && sub.Some? && sub.value in COMPILING
  }

  predicate IsPassthrough(sub: Option<string>) {
    match sub
    case None => true
    case Some(s) => (s != [] && s[0] == '-') || s in PASSTHROUGH
  }

  predicate LocalByPolicy(input: Input) {
    var sub := Subcommand(input);
    input.cargoPolicy && sub.Some? && sub.value in input.localSubcommands
  }

  /** The policy runs this invocation on this machine without asking any backend. */
  predicate Bypass(input: Input) {
    input.mode.PlainMode? || (input.cargoPolicy && IsPassthrough(Subcommand(input))) || LocalByPolicy(input)
  }

  predicate Links(input: Input) {
    input.cargoPolicy && Subcommand(input) == Some("build") && input.pullAndLink
  }

  lemma CompilingIsNotPassthrough(s: string)
    requires s in COMPILING
    ensures !IsPassthrough(Some(s))
  {
    NoQuery(s);
    NoEdit(s);
  }

  lemma NoQuery(s: string)
    requires s in COMPILING
    ensures s !in QUERIES && s[0] != '-'
  {
    if |s| == 3 {
      assert s == "doc" || s == "run";
    } else if |s| == 4 {
      assert s == "test";
    } else if |s| == 5 {
      assert s == "bench" || s == "build" || s == "check";
    } else {
      assert s == "clippy";
    }
  }

  lemma NoEdit(s: string)
    requires s in COMPILING
    ensures s !in EDITS
  {
    if |s| == 3 {
      assert s == "doc" || s == "run";
    } else if |s| == 4 {
      assert s == "test";
    } else if |s| == 5 {
      assert s == "bench" || s == "build" || s == "check";
    } else {
      assert s == "clippy";
    }
  }

  // ------------------------------------------------------------------------------------------
  // Traces

  datatype Dir = Cwd | Root

  datatype Failure = NoFingerprint | NoBackend | EveryBackendFailed

  datatype Effect =
    | Fingerprint(ok: bool)
    | Probe(probe: RemoteProbe)
    | AskLocal(available: bool)
    | Chose(chain: seq<Backend>)
    | FindRoot(ok: bool)
    | Push(ok: bool)
    | Connect(ok: bool)
    | Hello(ok: bool)
    | Submitted(backend: Backend, log: seq<B.Effect>, outcome: B.Outcome)
    | Report(fatal: bool)
    | Touch(dir: Dir)
    | Pull(ok: bool)
    | Exec
    | GaveUp(why: Failure)

  type Trace = seq<Effect>

  datatype Hooks = Hooks(fingerprint: Trace -> bool, probe: Trace -> RemoteProbe, local: Trace -> bool,
                         root: Trace -> bool, push: Trace -> bool, pull: Trace -> bool,
                         connect: Trace -> bool, hello: Trace -> bool,
                         script: Trace -> B.Script, exec: Trace -> int)

  /** Effect `e` is what the hooks answered after `before`. */
  ghost predicate Answered(hooks: Hooks, before: Trace, e: Effect) {
    match e
    case Fingerprint(ok) => ok == hooks.fingerprint(before)
    case Probe(probe) => probe == hooks.probe(before)
    case AskLocal(available) => available == hooks.local(before)
    case FindRoot(ok) => ok == hooks.root(before)
    case Push(ok) => ok == hooks.push(before)
    case Connect(ok) => ok == hooks.connect(before)
    case Hello(ok) => ok == hooks.hello(before)
    case Submitted(_, log, outcome) => exists n :: B.Faithful(hooks.script(before), n, log, outcome)
    case Pull(ok) => ok == hooks.pull(before)
    case _ => true
  }

  ghost predicate AnsweredAt(hooks: Hooks, t: Trace, i: nat)
    requires i < |t|
  {
    Answered(hooks, t[..i], t[i])
  }

  ghost predicate Genuine(hooks: Hooks, t: Trace) {
    forall i :: 0 <= i < |t| ==> AnsweredAt(hooks, t, i)
  }

  lemma Append(hooks: Hooks, t: Trace, e: Effect)
    requires Genuine(hooks, t) && Answered(hooks, t, e)
    ensures Genuine(hooks, t + [e])
  {
    var t' := t + [e];
    forall i | 0 <= i < |t'| ensures AnsweredAt(hooks, t', i) {
      if i < |t| {
        assert AnsweredAt(hooks, t, i) && t'[..i] == t[..i];
      } else {
        assert t'[..i] == t;
      }
    }
  }

  predicate Done(e: Effect) {
    e.Submitted? && e.outcome.Finished?
  }

  predicate DoneWell(e: Effect) {
    e.Submitted? && e.outcome == B.Finished(J.Code(0))
  }

  predicate Mismatched(e: Effect) {
    e.Submitted? && e.outcome.ToolchainMismatch?
  }

  /** Evidence that backend `b` was tried and did not do the job. */
  predicate FailureOf(b: Backend, e: Effect) {
    match b
    case Remote =>
      e == FindRoot(false) || e == Push(false) || (e.Submitted? && e.backend.Remote? && !e.outcome.Finished?)
    case Local =>
      || e == AskLocal(false) || e == Connect(false) || e == Hello(false)
      || (e.Submitted? && e.backend.Local? && !e.outcome.Finished?)
    case Plain => false
  }

  ghost predicate Failed(t: Trace, b: Backend) {
    exists e :: e in t && FailureOf(b, e)
  }

  // ------------------------------------------------------------------------------------------
  // What every run keeps

  ghost predicate Execs(t: Trace) {
    Exec in t
  }

  ghost predicate Touches(t: Trace) {
    Touch(Cwd) in t || Touch(Root) in t
  }

  ghost predicate JobDone(t: Trace) {
    exists e :: e in t && Done(e)
  }

  ghost predicate JobDoneWell(t: Trace) {
    exists e :: e in t && DoneWell(e)
  }

  ghost predicate ContractBroken(input: Input, t: Trace) {
    (input.pinned || input.override.Some?) && exists e :: e in t && Mismatched(e)
  }

  ghost predicate GivesUp(t: Trace) {
    exists why :: GaveUp(why) in t
  }

  /** At most one exec, and nothing after it. */
  ghost predicate ExecIsLast(t: Trace) {
    forall i :: 0 <= i < |t| - 1 ==> t[i] != Exec
  }

  /** At most one touch; exactly when the subcommand calls for it and a build ran well or is about to run here. It names
      the workspace root when a remote build is linked here, the working directory otherwise. */
  ghost predicate TouchedRightly(input: Input, t: Trace) {
    && (forall i, j :: 0 <= i < j < |t| && t[i].Touch? ==> !t[j].Touch?)
    && (Touches(t) <==> WantsTouch(input) && (Execs(t) || JobDoneWell(t)))
    && (Touch(Root) in t ==> Pulls(t)) && (Touch(Cwd) in t ==> !Pulls(t))
  }

  ghost predicate Pulls(t: Trace) {
    Pull(true) in t || Pull(false) in t
  }

  ghost predicate PushedBefore(t: Trace, i: nat)
    requires i < |t|
  {
    Push(true) in t[..i]
  }

  ghost predicate RemoteAfterPush(t: Trace) {
    forall i :: 0 <= i < |t| && t[i].Submitted? && t[i].backend.Remote? ==> PushedBefore(t, i)
  }

  /** Only backends of the chosen chain are used. */
  ghost predicate OnlyChosen(t: Trace) {
    forall i :: 0 <= i < |t| ==> UsesChosen(t, t[i])
  }

  ghost predicate UsesChosen(t: Trace, e: Effect) {
    (e.Submitted? ==> Permitted(t, e.backend)) && (e.Push? ==> Permitted(t, Remote))
  }

  ghost predicate Permitted(t: Trace, b: Backend) {
    exists chain: seq<Backend> :: Chose(chain) in t && b in chain
  }

  /** After a mismatch that breaks a toolchain contract: the message, exit 1, nothing else. */
  ghost predicate MismatchIsFinal(input: Input, t: Trace, code: int) {
    forall i :: 0 <= i < |t| && Mismatched(t[i]) && (input.pinned || input.override.Some?) ==>
      |t| == i + 2 && t[i + 1] == Report(true) && code == 1
  }

  /** Any other mismatch is followed by a warning, and nothing else is. */
  ghost predicate Warned(input: Input, t: Trace) {
    && (forall i :: 0 <= i < |t| && Mismatched(t[i]) && !input.pinned && input.override.None? ==>
          i + 1 < |t| && t[i + 1] == Report(false))
    && (forall i :: 0 <= i < |t| && t[i].Report? ==> i > 0 && Mismatched(t[i - 1]))
  }

  /** A remote `cargo build` that succeeded is linked here when the policy says so. */
  predicate Linked(input: Input, e: Effect) {
    DoneWell(e) && e.backend.Remote? && Links(input)
  }

  /** A job that ended is never run again. Its status is the exit code - a signal counting 128 more - unless the build
      is linked here by pulling and running the command. */
  ghost predicate JobIsFinal(input: Input, t: Trace, code: int) {
    forall i :: 0 <= i < |t| && Done(t[i]) ==>
      && (forall j :: i < j < |t| ==> t[j].Touch? || t[j].Pull? || t[j].Exec?)
      && if Linked(input, t[i]) then Pulls(t) && t[|t| - 1] == Exec
         else Exec !in t && code == match t[i].outcome.status case Code(c) => c case Signal(n) => 128 + n
  }

  /** Why a run gave up. */
  ghost predicate Because(t: Trace, why: Failure) {
    match why
    case NoFingerprint => Fingerprint(false) in t
    case NoBackend => Chose([]) in t
    case EveryBackendFailed => exists chain :: Chose(chain) in t && chain != []
  }

  /** Auto never gives up: it ends in an exec, in a job's status, or in a broken contract. */
  ghost predicate AutoDelivers(input: Input, t: Trace) {
    input.mode.AutoMode? ==> !GivesUp(t) && (Execs(t) || JobDone(t) || ContractBroken(input, t))
  }

  /** A forced mode runs nothing on this machine, except by policy or to link a finished remote build. */
  ghost predicate ForcedStaysAway(input: Input, t: Trace) {
    (input.mode.RemoteMode? || input.mode.LocalMode?) && Execs(t) && !Bypass(input) ==>
      exists e :: e in t && Linked(input, e)
  }

  /** No backend of the chain is passed over: the run leaves one behind only when it failed. */
  ghost predicate FellThrough(input: Input, t: Trace) {
    JobDone(t) || ContractBroken(input, t) || Exhausted(t)
  }

  ghost predicate Exhausted(t: Trace) {
    forall chain: seq<Backend>, b: Backend :: Chose(chain) in t && b in chain && !b.Plain? ==> Failed(t, b)
  }

  predicate Probes(input: Input) {
    (input.mode.AutoMode? || input.mode.RemoteMode?) && input.cfg.remoteEnabled
  }

  /** How a run that asks the backends begins: fingerprint, probe where the mode and the configuration call for it,
      local
      server, and the chain these answers give. */
  ghost predicate Opening(input: Input, t: Trace, chain: seq<Backend>) {
    if (input.mode == AutoMode || input.mode == RemoteMode) && input.cfg.remoteEnabled then
      && |t| >= 4 && t[0] == Fingerprint(true) && t[1].Probe? && t[2].AskLocal? && t[3] == Chose(chain)
      && IsChain(chain, input.mode, Some(t[1].probe), t[2].available, input.cfg)
    else
      && |t| >= 3 && t[0] == Fingerprint(true) && t[1].AskLocal? && t[2] == Chose(chain)
      && IsChain(chain, input.mode, None, t[1].available, input.cfg)
  }

  ghost predicate ChoseRightly(input: Input, t: Trace) {
    forall chain :: Chose(chain) in t ==> Opening(input, t, chain)
  }

  ghost predicate Guarantees(input: Input, t: Trace, code: int) {
    && ExecIsLast(t) && TouchedRightly(input, t)
    && RemoteAfterPush(t) && OnlyChosen(t)
    && MismatchIsFinal(input, t, code) && JobIsFinal(input, t, code)
    && AutoDelivers(input, t) && ForcedStaysAway(input, t)
    && ChoseRightly(input, t) && FellThrough(input, t)
    && Warned(input, t)
    && (GivesUp(t) ==> code == 1) && (forall why :: GaveUp(why) in t ==> Because(t, why))
    && (Bypass(input) ==> Execs(t) && forall e :: e in t ==> e.Touch? || e.Exec?)
  }

  // ------------------------------------------------------------------------------------------
  // A run that is still going

  /** Effects after which the run continues. */
  predicate Continues(input: Input, e: Effect) {
    && !e.Exec? && !e.Touch? && !e.GaveUp? && !e.Pull? && !Done(e)
    && !(Mismatched(e) && HardMismatch(input))
  }

  ghost predicate Going(input: Input, t: Trace) {
    && (forall i :: 0 <= i < |t| ==> Continues(input, t[i]))
    && RemoteAfterPush(t) && OnlyChosen(t) && Warned(input, t)
    && ChoseRightly(input, t)
  }

  lemma KeepPushes(t: Trace, e: Effect)
    requires RemoteAfterPush(t)
    requires e.Submitted? && e.backend.Remote? ==> Push(true) in t
    ensures RemoteAfterPush(t + [e])
  {
    var t' := t + [e];
    forall i | 0 <= i < |t'| && t'[i].Submitted? && t'[i].backend.Remote? ensures PushedBefore(t', i) {
      if i < |t| {
        assert PushedBefore(t, i) && t'[..i] == t[..i];
      } else {
        assert t'[..i] == t;
      }
    }
  }

  lemma KeepOpening(input: Input, t: Trace, e: Effect)
    requires ChoseRightly(input, t) && !e.Chose?
    ensures ChoseRightly(input, t + [e])
  {
    forall chain | Chose(chain) in t + [e] ensures Opening(input, t + [e], chain) {
      assert Chose(chain) in t;
    }
  }

  lemma KeepChosen(t: Trace, e: Effect)
    requires OnlyChosen(t) && UsesChosen(t, e)
    ensures OnlyChosen(t + [e])
  {
    forall b | Permitted(t, b) ensures Permitted(t + [e], b) {
      var chain: seq<Backend> :| Chose(chain) in t && b in chain;
      assert Chose(chain) in t + [e];
    }
  }

  /** `e` may come next. */
  ghost predicate Allowed(t: Trace, e: Effect) {
    !e.Chose? && UsesChosen(t, e) && (e.Submitted? && e.backend.Remote? ==> Push(true) in t)
  }

  /** The part of `Going` that also holds once the run is over. */
  ghost predicate Orderly(input: Input, t: Trace) {
    RemoteAfterPush(t) && OnlyChosen(t) && ChoseRightly(input, t)
  }

  lemma Keep(input: Input, t: Trace, e: Effect)
    requires Orderly(input, t) && Allowed(t, e)
    ensures Orderly(input, t + [e])
  {
    KeepPushes(t, e);
    KeepOpening(input, t, e);
    KeepChosen(t, e);
  }

  lemma KeepGoing(input: Input, t: Trace, e: Effect)
    requires Going(input, t) && Continues(input, e) && Allowed(t, e) && !Mismatched(e) && !e.Report?
    ensures Going(input, t + [e])
  {
    Keep(input, t, e);
    WarnedOn(input, t, [e]);
  }

  /** Effects without mismatch or report keep the warnings right. */
  lemma WarnedOn(input: Input, t: Trace, s: Trace)
    requires Warned(input, t) && forall e :: e in s ==> !Mismatched(e) && !e.Report?
    ensures Warned(input, t + s)
  {
    var all := t + s;
    forall i | 0 <= i < |all| ensures i >= |t| ==> all[i] in s {
    }
  }

  lemma WarnedAfter(input: Input, t: Trace, e: Effect, fatal: bool)
    requires Warned(input, t) && Mismatched(e) && (fatal <==> input.pinned || input.override.Some?)
    ensures Warned(input, t + [e] + [Report(fatal)])
  {
  }

  /** A mismatch without a contract: the warning, and the run goes on. */
  lemma KeepWarned(input: Input, t: Trace, e: Effect)
    requires Going(input, t) && Mismatched(e) && Allowed(t, e) && !HardMismatch(input)
    ensures Going(input, t + [e] + [Report(false)])
  {
    Keep(input, t, e);
    Keep(input, t + [e], Report(false));
    WarnedAfter(input, t, e, false);
  }

  // ------------------------------------------------------------------------------------------
  // How runs end

  function TouchIf(input: Input, dir: Dir): Trace {
    if WantsTouch(input) then [Touch(dir)] else []
  }

  /** The last effects of a run, by themselves. */
  ghost predicate Ending(input: Input, s: Trace, code: int) {
    && s != [] && ExecIsLast(s) && TouchedRightly(input, s)
    && MismatchIsFinal(input, s, code) && JobIsFinal(input, s, code)
    && AutoDelivers(input, s) && ForcedStaysAway(input, s)
    && (GivesUp(s) ==> code == 1)
  }

  lemma LiftWarned(input: Input, t: Trace, s: Trace)
    requires Warned(input, t) && ((forall e :: e in s ==> !Mismatched(e) && !e.Report?) || BrokenEnd(input, s))
    ensures Warned(input, t + s)
  {
    if BrokenEnd(input, s) {
      WarnedAfter(input, t, s[0], true);
      assert t + s == t + [s[0]] + [Report(true)];
    } else {
      WarnedOn(input, t, s);
    }
  }

  ghost predicate BrokenEnd(input: Input, s: Trace) {
    (input.pinned || input.override.Some?) && |s| == 2 && Mismatched(s[0]) && s[1] == Report(true)
  }

  lemma LiftExecAndTouch(input: Input, t: Trace, s: Trace)
    requires Going(input, t) && s != [] && ExecIsLast(s) && TouchedRightly(input, s)
    ensures ExecIsLast(t + s) && TouchedRightly(input, t + s)
  {
    assert JobDoneWell(t + s) <==> JobDoneWell(s);
    var all := t + s;
    forall i, j | 0 <= i < j < |all| && all[i].Touch? ensures !all[j].Touch? {
      assert i >= |t| && all[i] == s[i - |t|] && all[j] == s[j - |t|];
    }
  }

  lemma LiftMismatch(input: Input, t: Trace, s: Trace, code: int)
    requires Going(input, t) && MismatchIsFinal(input, s, code)
    ensures MismatchIsFinal(input, t + s, code)
  {
    var all := t + s;
    forall i | 0 <= i < |all| && Mismatched(all[i]) && (input.pinned || input.override.Some?)
      ensures |all| == i + 2 && all[i + 1] == Report(true) && code == 1
    {
      assert i >= |t| && all[i] == s[i - |t|];
    }
  }

  lemma LiftJob(input: Input, t: Trace, s: Trace, code: int)
    requires Going(input, t) && JobIsFinal(input, s, code)
    ensures JobIsFinal(input, t + s, code)
  {
    var all := t + s;
    forall i | 0 <= i < |all| && Done(all[i])
      ensures forall j :: i < j < |all| ==> all[j].Touch? || all[j].Pull? || all[j].Exec?
      ensures if Linked(input, all[i]) then Pulls(all) && all[|all| - 1] == Exec
              else Exec !in all && code == match all[i].outcome.status case Code(c) => c case Signal(n) => 128 + n
    {
      assert i >= |t| && all[i] == s[i - |t|];
      assert Exec !in t && (Pulls(s) ==> Pulls(all));
      forall j | i < j < |all| ensures all[j].Touch? || all[j].Pull? || all[j].Exec? {
        assert all[j] == s[j - |t|];
      }
    }
  }

  lemma LiftDelivery(input: Input, t: Trace, s: Trace, code: int)
    requires Going(input, t) && AutoDelivers(input, s) && ForcedStaysAway(input, s) && (GivesUp(s) ==> code == 1)
    ensures AutoDelivers(input, t + s) && ForcedStaysAway(input, t + s) && (GivesUp(t + s) ==> code == 1)
  {
    assert forall e :: e in s ==> e in t + s;
  }

  lemma LiftFallThrough(input: Input, t: Trace, s: Trace)
    requires JobDone(s) || ContractBroken(input, s) || Exhausted(t)
    requires forall e :: e in s ==> !e.Chose?
    ensures FellThrough(input, t + s)
  {
    assert forall e :: e in s ==> e in t + s;
    if Exhausted(t) {
      forall chain: seq<Backend>, b: Backend | Chose(chain) in t + s && b in chain &&
          !b.Plain? ensures Failed(t + s, b) {
        assert Chose(chain) in t;
        var e :| e in t && FailureOf(b, e);
        assert e in t + s;
      }
    }
  }

  lemma LiftBecause(t: Trace, s: Trace)
    requires forall why :: GaveUp(why) in s ==> Because(t, why)
    requires forall e :: e in t ==> !e.GaveUp?
    ensures forall why :: GaveUp(why) in t + s ==> Because(t + s, why)
  {
    forall why | GaveUp(why) in t + s ensures Because(t + s, why) {
      if why.EveryBackendFailed? {
        var chain :| Chose(chain) in t && chain != [];
        assert Chose(chain) in t + s;
      }
    }
  }

  /** A run that was going, followed by an ending, is a run that kept its word. */
  lemma Conclude(input: Input, t: Trace, s: Trace, code: int)
    requires Going(input, t) && Ending(input, s, code)
    requires Orderly(input, t + s)
    requires JobDone(s) || ContractBroken(input, s) || Exhausted(t)
    requires forall e :: e in s ==> !e.Chose?
    requires Bypass(input) ==> t == [] && Execs(s) && forall e :: e in s ==> e.Touch? || e.Exec?
    requires (forall e :: e in s ==> !Mismatched(e) && !e.Report?) || BrokenEnd(input, s)
    requires forall why :: GaveUp(why) in s ==> Because(t, why)
    ensures Guarantees(input, t + s, code)
  {
    LiftWarned(input, t, s);
    LiftBecause(t, s);
    LiftExecAndTouch(input, t, s);
    LiftMismatch(input, t, s, code);
    LiftJob(input, t, s, code);
    LiftDelivery(input, t, s, code);
    LiftFallThrough(input, t, s);
  }

  /** Touch and exec on this machine. */
  lemma EndInExec(input: Input, t: Trace, code: int)
    requires Going(input, t) && Exhausted(t)
    requires (Bypass(input) && t == []) || (input.mode.AutoMode? && !Bypass(input))
    ensures Guarantees(input, t + TouchIf(input, Cwd) + [Exec], code)
  {
    var s := TouchIf(input, Cwd) + [Exec];
    var t1 := t + TouchIf(input, Cwd);
    if WantsTouch(input) {
      Keep(input, t, Touch(Cwd));
    } else {
      assert t1 == t;
    }
    Keep(input, t1, Exec);
    assert t + s == t1 + [Exec];
    ExecEnds(input, code);
    Conclude(input, t, s, code);
  }

  lemma ExecEnds(input: Input, code: int)
    requires Bypass(input) || input.mode.AutoMode?
    ensures Ending(input, TouchIf(input, Cwd) + [Exec], code)
  {
    if WantsTouch(input) {
      var s := [Touch(Cwd), Exec];
      assert s[0] in s && s[1] in s;
      assert Ending(input, s, code);
      assert [Touch(Cwd)] + [Exec] == s;
    } else {
      var s := [Exec];
      assert s[0] in s;
      assert Ending(input, s, code);
      assert [] + [Exec] == s;
    }
  }

  lemma EndGivingUp(input: Input, t: Trace, why: Failure)
    requires Going(input, t) && Exhausted(t) && !input.mode.AutoMode? && !Bypass(input) && Because(t, why)
    ensures Guarantees(input, t + [GaveUp(why)], 1)
  {
    assert [GaveUp(why)][0] in [GaveUp(why)];
    Keep(input, t, GaveUp(why));
    Conclude(input, t, [GaveUp(why)], 1);
  }

  /** The message about a broken contract. */
  lemma EndBroken(input: Input, t: Trace, e: Effect)
    requires Going(input, t) && HardMismatch(input) && !Bypass(input)
    requires Mismatched(e) && Allowed(t, e)
    ensures Guarantees(input, t + [e] + [Report(true)], 1)
  {
    var s := [e, Report(true)];
    Keep(input, t, e);
    Keep(input, t + [e], Report(true));
    assert t + s == t + [e] + [Report(true)];
    assert s[0] in s;
    Conclude(input, t, s, 1);
  }

  /** A job's status becomes the exit code; a success is touched afterwards. */
  lemma EndWithStatus(input: Input, t: Trace, e: Effect)
    requires Going(input, t) && !Bypass(input)
    requires Done(e) && Allowed(t, e) && !Linked(input, e)
    ensures Guarantees(input, t + [e] + (if DoneWell(e) then TouchIf(input, Cwd) else []), J.ExitCode(e.outcome.status))
  {
    Keep(input, t, e);
    var code := J.ExitCode(e.outcome.status);
    StatusEnds(input, e);
    if DoneWell(e) && WantsTouch(input) {
      Keep(input, t + [e], Touch(Cwd));
      assert t + [e, Touch(Cwd)] == t + [e] + [Touch(Cwd)];
      Conclude(input, t, [e, Touch(Cwd)], code);
    } else {
      assert t + [e] + [] == t + [e];
      Conclude(input, t, [e], code);
    }
  }

  lemma StatusEnds(input: Input, e: Effect)
    requires Done(e) && !Linked(input, e)
    ensures var s := if DoneWell(e) && WantsTouch(input) then [e, Touch(Cwd)] else [e];
      Ending(input, s, J.ExitCode(e.outcome.status)) && JobDone(s)
  {
    var s := if DoneWell(e) && WantsTouch(input) then [e, Touch(Cwd)] else [e];
    assert s[0] == e && e in s;
    assert |s| == 2 ==> s[1] == Touch(Cwd) && s[1] in s;
  }

  lemma TouchedLinkEnds(input: Input, e: Effect, pulled: bool, code: int)
    requires Linked(input, e) && WantsTouch(input)
    ensures Ending(input, [e, Touch(Root), Pull(pulled), Exec], code)
  {
    var s := [e, Touch(Root), Pull(pulled), Exec];
    assert s[0] in s && s[1] in s && s[2] in s && s[3] in s;
    assert Execs(s) && Pulls(s) && JobDone(s) && JobDoneWell(s);
  }

  lemma UntouchedLinkEnds(input: Input, e: Effect, pulled: bool, code: int)
    requires Linked(input, e) && !WantsTouch(input)
    ensures Ending(input, [e, Pull(pulled), Exec], code)
  {
    var s := [e, Pull(pulled), Exec];
    assert s[0] in s && s[1] in s && s[2] in s;
    assert Execs(s) && Pulls(s) && JobDone(s);
  }

  lemma LinkingEnds(input: Input, e: Effect, pulled: bool, code: int)
    requires DoneWell(e) && e.backend.Remote? && Links(input)
    ensures Ending(input, LinkTrace(input, e, pulled), code)
  {
    if WantsTouch(input) {
      TouchedLinkEnds(input, e, pulled, code);
      assert [e] + [Touch(Root)] + [Pull(pulled)] + [Exec] == [e, Touch(Root), Pull(pulled), Exec];
    } else {
      UntouchedLinkEnds(input, e, pulled, code);
      assert [e] + [] + [Pull(pulled)] + [Exec] == [e, Pull(pulled), Exec];
    }
  }

  function LinkTrace(input: Input, e: Effect, pulled: bool): Trace {
    [e] + TouchIf(input, Root) + [Pull(pulled)] + [Exec]
  }

  lemma LinkingOrderly(input: Input, t: Trace, e: Effect, pulled: bool)
    requires Orderly(input, t) && Allowed(t, e)
    ensures Orderly(input, t + LinkTrace(input, e, pulled))
  {
    var t1 := t + [e];
    var t2 := t1 + TouchIf(input, Root);
    Keep(input, t, e);
    if WantsTouch(input) {
      Keep(input, t1, Touch(Root));
    } else {
      assert t2 == t1;
    }
    Keep(input, t2, Pull(pulled));
    Keep(input, t2 + [Pull(pulled)], Exec);
    assert t + LinkTrace(input, e, pulled) == t2 + [Pull(pulled)] + [Exec];
  }

  lemma LinkTraceHolds(input: Input, e: Effect, pulled: bool)
    requires DoneWell(e)
    ensures var s := LinkTrace(input, e, pulled);
      e in s && forall x :: x in s ==> x == e || x.Touch? || x.Pull? || x.Exec?
  {
    assert LinkTrace(input, e, pulled)[0] == e;
  }

  /** A remote build linked here: touch, pull, exec. */
  lemma EndLinking(input: Input, t: Trace, e: Effect, pulled: bool, code: int)
    requires Going(input, t) && !Bypass(input) && Links(input)
    requires DoneWell(e) && e.backend.Remote? && Allowed(t, e)
    ensures Guarantees(input, t + LinkTrace(input, e, pulled), code)
  {
    LinkingOrderly(input, t, e, pulled);
    LinkingEnds(input, e, pulled, code);
    LinkTraceHolds(input, e, pulled);
    Conclude(input, t, LinkTrace(input, e, pulled), code);
  }

  // ------------------------------------------------------------------------------------------
  // The run

  /** `touch_before_exec`, then exec. */
  method ExecHere(input: Input, hooks: Hooks, t: Trace) returns (code: int, t': Trace)
    requires Genuine(hooks, t)
    ensures t' == t + TouchIf(input, Cwd) + [Exec] && Genuine(hooks, t')
    ensures code == hooks.exec(t'[..|t'| - 1])
  {
    t' := t;
    if WantsTouch(input) {
      Append(hooks, t', Touch(Cwd));
      t' := t' + [Touch(Cwd)];
    }
    assert t' == t + TouchIf(input, Cwd);
    code := hooks.exec(t');
    Append(hooks, t', Exec);
    assert (t' + [Exec])[..|t'|] == t';
    t' := t' + [Exec];
  }

  lemma Permits(t: Trace, t': Trace, b: Backend)
    requires Permitted(t, b) && t <= t'
    ensures Permitted(t', b)
  {
    var chain: seq<Backend> :| Chose(chain) in t && b in chain;
    assert Chose(chain) in t';
  }

  /** One attempt at the remote: None when it never got as far as submitting. */
  method TryRemote(input: Input, hooks: Hooks, t: Trace) returns (before: Trace, sent: Option<Effect>)
    requires Going(input, t) && Genuine(hooks, t) && Permitted(t, Remote)
    ensures Going(input, before) && Genuine(hooks, before) && t <= before
    ensures forall chain :: Chose(chain) in before ==> Chose(chain) in t
    ensures sent.None? ==> Failed(before, Remote)
    ensures sent.Some? ==> sent.value.Submitted? && sent.value.backend == Remote
    ensures sent.Some? ==> Answered(hooks, before, sent.value) && Allowed(before, sent.value)
  {
    var found := hooks.root(t);
    Append(hooks, t, FindRoot(found));
    KeepGoing(input, t, FindRoot(found));
    before := t + [FindRoot(found)];
    if !found {
      assert FindRoot(false) in before && FailureOf(Remote, FindRoot(false));
      return before, None;
    }
    Permits(t, before, Remote);
    var pushed := hooks.push(before);
    Append(hooks, before, Push(pushed));
    KeepGoing(input, before, Push(pushed));
    before := before + [Push(pushed)];
    if !pushed {
      assert Push(false) in before && FailureOf(Remote, Push(false));
      return before, None;
    }
    var log, outcome, n := B.Submit(hooks.script(before));
    Permits(t, before, Remote);
    return before, Some(Submitted(Remote, log, outcome));
  }

  method TryLocal(input: Input, hooks: Hooks, t: Trace) returns (before: Trace, sent: Option<Effect>)
    requires Going(input, t) && Genuine(hooks, t) && Permitted(t, Local)
    ensures Going(input, before) && Genuine(hooks, before) && t <= before
    ensures forall chain :: Chose(chain) in before ==> Chose(chain) in t
    ensures sent.None? ==> Failed(before, Local)
    ensures sent.Some? ==> sent.value.Submitted? && sent.value.backend == Local
    ensures sent.Some? ==> Answered(hooks, before, sent.value) && Allowed(before, sent.value)
  {
    var available := hooks.local(t);
    Append(hooks, t, AskLocal(available));
    KeepGoing(input, t, AskLocal(available));
    before := t + [AskLocal(available)];
    if !available {
      assert AskLocal(false) in before && FailureOf(Local, AskLocal(false));
      return before, None;
    }
    var connected := hooks.connect(before);
    Append(hooks, before, Connect(connected));
    KeepGoing(input, before, Connect(connected));
    before := before + [Connect(connected)];
    if !connected {
      assert Connect(false) in before && FailureOf(Local, Connect(false));
      return before, None;
    }
    var greeted := hooks.hello(before);
    Append(hooks, before, Hello(greeted));
    KeepGoing(input, before, Hello(greeted));
    before := before + [Hello(greeted)];
    if !greeted {
      assert Hello(false) in before && FailureOf(Local, Hello(false));
      return before, None;
    }
    var log, outcome, n := B.Submit(hooks.script(before));
    Permits(t, before, Local);
    return before, Some(Submitted(Local, log, outcome));
  }

  /** An exec's exit code is the run's. */
  ghost predicate ExecCode(hooks: Hooks, t: Trace, code: int) {
    Execs(t) ==> code == hooks.exec(t[..|t| - 1])
  }

  ghost predicate Finished(input: Input, hooks: Hooks, t: Trace, code: int) {
    Guarantees(input, t, code) && Genuine(hooks, t) && ExecCode(hooks, t, code)
  }

  /** The local link step after a remote build. */
  method LinkHere(input: Input, hooks: Hooks, before: Trace, e: Effect) returns (code: int, t: Trace)
    requires Going(input, before) && Genuine(hooks, before) && !Bypass(input) && Links(input)
    requires DoneWell(e) && e.backend.Remote? && Allowed(before, e) && Answered(hooks, before, e)
    ensures Finished(input, hooks, t, code) && before <= t
  {
    var pulled;
    code, t, pulled := TouchPullExec(input, hooks, before, e);
    LinkFinishes(input, hooks, before, e, pulled, code, t);
  }

  method TouchPullExec(input: Input, hooks: Hooks, before: Trace, e: Effect) returns (code: int, t: Trace, pulled: bool)
    requires Genuine(hooks, before) && Answered(hooks, before, e)
    ensures t == before + LinkTrace(input, e, pulled) && Genuine(hooks, t) && code == hooks.exec(t[..|t| - 1])
  {
    Append(hooks, before, e);
    t := before + [e];
    if WantsTouch(input) {
      Append(hooks, t, Touch(Root));
      t := t + [Touch(Root)];
    }
    assert t == before + [e] + TouchIf(input, Root);
    pulled := hooks.pull(t);
    Append(hooks, t, Pull(pulled));
    t := t + [Pull(pulled)];
    code := hooks.exec(t);
    Append(hooks, t, Exec);
    assert (t + [Exec])[..|t|] == t;
    t := t + [Exec];
    assert t == before + LinkTrace(input, e, pulled);
  }

  lemma LinkFinishes(input: Input, hooks: Hooks, before: Trace, e: Effect, pulled: bool, code: int, t: Trace)
    requires Going(input, before) && !Bypass(input) && Links(input)
    requires DoneWell(e) && e.backend.Remote? && Allowed(before, e)
    requires t == before + LinkTrace(input, e, pulled) && Genuine(hooks, t) && code == hooks.exec(t[..|t| - 1])
    ensures Finished(input, hooks, t, code)
  {
    EndLinking(input, before, e, pulled, code);
  }

  method FinishJob(input: Input, hooks: Hooks, before: Trace, e: Effect) returns (code: int, t: Trace)
    requires Going(input, before) && Genuine(hooks, before) && !Bypass(input)
    requires Done(e) && Answered(hooks, before, e) && Allowed(before, e) && !Linked(input, e)
    ensures Finished(input, hooks, t, code) && before <= t
  {
    Append(hooks, before, e);
    t, code := before + [e], J.ExitCode(e.outcome.status);
    if J.Success(e.outcome.status) && WantsTouch(input) {
      Append(hooks, t, Touch(Cwd));
      t := t + [Touch(Cwd)];
    }
    StatusFinishes(input, hooks, before, e, t);
  }

  lemma StatusFinishes(input: Input, hooks: Hooks, before: Trace, e: Effect, t: Trace)
    requires Going(input, before) && !Bypass(input) && Done(e) && Allowed(before, e) && Genuine(hooks, t)
    requires !Linked(input, e)
    requires t == if DoneWell(e) && WantsTouch(input) then before + [e] + [Touch(Cwd)] else before + [e]
    ensures Finished(input, hooks, t, J.ExitCode(e.outcome.status))
  {
    EndWithStatus(input, before, e);
    assert t == before + [e] + (if DoneWell(e) then TouchIf(input, Cwd) else []);
    assert Exec !in before;
  }

  /** What the run does with the outcome of a submission: end, or go on to the next backend. */
  method Settle(input: Input, hooks: Hooks, before: Trace, e: Effect) returns (over: bool, code: int, t: Trace)
    requires Going(input, before) && Genuine(hooks, before) && !Bypass(input)
    requires e.Submitted? && Answered(hooks, before, e) && Allowed(before, e) && !e.backend.Plain?
    ensures before <= t && (over ==> Finished(input, hooks, t, code))
    ensures !over ==> Going(input, t) && Genuine(hooks, t) && Failed(t, e.backend)
    ensures !over ==> forall chain :: Chose(chain) in t ==> Chose(chain) in before
  {
    over, code := true, 1;
    if e.backend.Remote? && DoneWell(e) && Links(input) {
      code, t := LinkHere(input, hooks, before, e);
      return;
    }
    if e.outcome.Finished? {
      code, t := FinishJob(input, hooks, before, e);
      return;
    }
    if e.outcome.ToolchainMismatch? {
      over, t := SettleMismatch(input, hooks, before, e);
      return;
    }
    over := false;
    KeepGoing(input, before, e);
    Append(hooks, before, e);
    t := before + [e];
    assert e in t && FailureOf(e.backend, e);
  }

  method SettleMismatch(input: Input, hooks: Hooks, before: Trace, e: Effect) returns (over: bool, t: Trace)
    requires Going(input, before) && Genuine(hooks, before) && !Bypass(input)
    requires Mismatched(e) && Answered(hooks, before, e) && Allowed(before, e) && !e.backend.Plain?
    ensures before <= t && (over ==> Finished(input, hooks, t, 1))
    ensures !over ==> Going(input, t) && Genuine(hooks, t) && Failed(t, e.backend)
    ensures !over ==> forall chain :: Chose(chain) in t ==> Chose(chain) in before
  {
    over := HardMismatch(input);
    t := before + [e] + [Report(over)];
    if over {
      MismatchEnds(input, hooks, before, e);
    } else {
      MismatchWarns(input, hooks, before, e);
    }
  }

  lemma MismatchEnds(input: Input, hooks: Hooks, before: Trace, e: Effect)
    requires Going(input, before) && Genuine(hooks, before) && !Bypass(input) && HardMismatch(input)
    requires Mismatched(e) && Answered(hooks, before, e) && Allowed(before, e)
    ensures Finished(input, hooks, before + [e] + [Report(true)], 1)
  {
    Append(hooks, before, e);
    Append(hooks, before + [e], Report(true));
    EndBroken(input, before, e);
  }

  lemma MismatchWarns(input: Input, hooks: Hooks, before: Trace, e: Effect)
    requires Going(input, before) && Genuine(hooks, before) && !HardMismatch(input)
    requires Mismatched(e) && Answered(hooks, before, e) && Allowed(before, e) && !e.backend.Plain?
    ensures var t := before + [e] + [Report(false)];
      && Going(input, t) && Genuine(hooks, t) && Failed(t, e.backend)
      && forall chain :: Chose(chain) in t ==> Chose(chain) in before
  {
    Append(hooks, before, e);
    Append(hooks, before + [e], Report(false));
    KeepWarned(input, before, e);
    assert e in before + [e] + [Report(false)] && FailureOf(e.backend, e);
  }

  /** The chain down to `n` has been tried in vain. */
  ghost predicate Walking(input: Input, hooks: Hooks, t: Trace, chain: seq<Backend>, n: nat) {
    && n <= |chain| && Going(input, t) && Genuine(hooks, t) && Opening(input, t, chain)
    && (forall c :: Chose(c) in t ==> c == chain)
    && (forall k :: 0 <= k < n ==> Failed(t, chain[k]))
  }

  lemma WalkOn(input: Input, hooks: Hooks, t: Trace, chain: seq<Backend>, n: nat, t': Trace)
    requires Walking(input, hooks, t, chain, n) && n < |chain|
    requires Going(input, t') && Genuine(hooks, t') && t <= t' && Failed(t', chain[n])
    requires forall c :: Chose(c) in t' ==> Chose(c) in t
    ensures Walking(input, hooks, t', chain, n + 1)
  {
    forall k | 0 <= k < n ensures Failed(t', chain[k]) {
      var e :| e in t && FailureOf(chain[k], e);
      assert e in t';
    }
  }

  lemma OpeningChain(input: Input, t: Trace, chain: seq<Backend>)
    requires Opening(input, t, chain)
    ensures Preferred(chain)
    ensures forall b :: b in chain ==> Considers(input.mode, b)
    ensures input.mode.AutoMode? ==> chain != [] && chain[|chain| - 1] == Plain
  {
    if input.mode.AutoMode? {
      if Probes(input) {
        AutoEndsInPlain(chain, Some(t[1].probe), t[2].available, input.cfg);
      } else {
        AutoEndsInPlain(chain, None, t[1].available, input.cfg);
      }
    }
  }

  /** Reaching plain, or the end, means that everything before was tried. */
  lemma WalkedAll(input: Input, hooks: Hooks, t: Trace, chain: seq<Backend>, n: nat)
    requires Walking(input, hooks, t, chain, n) && (n == |chain| || chain[n].Plain?)
    ensures Exhausted(t)
  {
    OpeningChain(input, t, chain);
    forall b: Backend | b in chain && !b.Plain? ensures Failed(t, b) {
      var k :| 0 <= k < |chain| && chain[k] == b;
    }
  }

  /** The trace of a run up to the question whether there is a local server. */
  function Asked(probe: Option<RemoteProbe>): Trace {
    [Fingerprint(true)] + if probe.Some? then [Probe(probe.value)] else []
  }

  /** Fingerprint done: probe the remote where mode and configuration call for it. */
  method AskRemote(input: Input, hooks: Hooks) returns (t: Trace, probe: Option<RemoteProbe>)
    requires hooks.fingerprint([])
    ensures t == Asked(probe) && (probe.Some? <==> Probes(input)) && Genuine(hooks, t)
  {
    Append(hooks, [], Fingerprint(true));
    t, probe := [] + [Fingerprint(true)], None;
    if Probes(input) {
      var p := hooks.probe(t);
      Append(hooks, t, Probe(p));
      t, probe := t + [Probe(p)], Some(p);
    }
  }

  lemma OpeningWalks(input: Input, hooks: Hooks, probe: Option<RemoteProbe>, available: bool, chain: seq<Backend>,
                     t: Trace)
    requires probe.Some? <==> Probes(input)
    requires t == Asked(probe) + [AskLocal(available)] + [Chose(chain)] && Genuine(hooks, t)
    requires IsChain(chain, input.mode, probe, available, input.cfg)
    ensures Walking(input, hooks, t, chain, 0)
  {
    assert Opening(input, t, chain);
    assert forall c :: Chose(c) in t ==> c == chain;
    assert Going(input, t);
  }

  lemma ProbedRemote(chain: seq<Backend>, mode: Mode, probe: Option<RemoteProbe>, available: bool, cfg: Config)
    requires IsChain(chain, mode, probe, available, cfg) && Remote in chain
    ensures probe.Some? && probe.value.Probed?
  {
  }

  /** Then ask for the local server and select. */
  method Ask(input: Input, hooks: Hooks) returns (t: Trace, chain: seq<Backend>, conn: bool)
    requires hooks.fingerprint([])
    ensures Walking(input, hooks, t, chain, 0)
    ensures Remote in chain ==> conn
  {
    var probe, skipped;
    t, probe := AskRemote(input, hooks);
    conn := probe.Some? && probe.value.Probed?;
    var available := hooks.local(t);
    Append(hooks, t, AskLocal(available));
    t := t + [AskLocal(available)];
    chain, skipped := Select(input.mode, probe, available, input.cfg);
    if Remote in chain {
      ProbedRemote(chain, input.mode, probe, available, input.cfg);
    }
    Append(hooks, t, Chose(chain));
    t := t + [Chose(chain)];
    OpeningWalks(input, hooks, probe, available, chain, t);
  }

  lemma RemoteIsFirst(chain: seq<Backend>, n: nat)
    requires Preferred(chain) && n < |chain|
    ensures chain[n].Remote? ==> n == 0
  {
    if n > 0 {
      assert Rank(chain[0]) < Rank(chain[n]);
    }
  }

  lemma GoingFromNothing(input: Input)
    ensures Going(input, []) && Exhausted([])
  {
  }

  /** A run the policy keeps on this machine. Passthrough subcommands do not compile, so they are not touched. */
  method RunBypassed(input: Input, hooks: Hooks) returns (code: int, t: Trace)
    requires Bypass(input)
    ensures Finished(input, hooks, t, code)
  {
    var sub := Subcommand(input);
    GoingFromNothing(input);
    if !input.mode.PlainMode? && input.cargoPolicy && IsPassthrough(sub) {
      if sub.Some? && sub.value in COMPILING {
        CompilingIsNotPassthrough(sub.value);
        assert false;
      }
      assert TouchIf(input, Cwd) == [];
      code := hooks.exec([]);
      EndInExec(input, [], code);
      Append(hooks, [], Exec);
      t := [] + [Exec];
      assert [] + TouchIf(input, Cwd) + [Exec] == t && t[..0] == [];
    } else {
      EndInExec(input, [], hooks.exec([] + TouchIf(input, Cwd)));
      code, t := ExecHere(input, hooks, []);
      assert t[..|t| - 1] == [] + TouchIf(input, Cwd);
    }
  }

  method RunWithoutFingerprint(input: Input, hooks: Hooks) returns (code: int, t: Trace)
    requires !Bypass(input) && !hooks.fingerprint([])
    ensures Finished(input, hooks, t, code) && t != [] && t[0] == Fingerprint(false)
  {
    GoingFromNothing(input);
    Append(hooks, [], Fingerprint(false));
    KeepGoing(input, [], Fingerprint(false));
    t := [] + [Fingerprint(false)];
    assert Exhausted(t);
    if input.mode.AutoMode? {
      EndInExec(input, t, hooks.exec(t + TouchIf(input, Cwd)));
      code, t := ExecHere(input, hooks, t);
      assert t[..|t| - 1] == [] + [Fingerprint(false)] + TouchIf(input, Cwd);
    } else {
      EndGivingUp(input, t, NoFingerprint);
      Append(hooks, t, GaveUp(NoFingerprint));
      code, t := 1, t + [GaveUp(NoFingerprint)];
    }
  }

  /** The shim's run. Whatever the hooks answer, its trace and exit code keep every guarantee above. */
  method Run(input: Input, hooks: Hooks) returns (code: int, t: Trace)
    ensures Guarantees(input, t, code) && AsDocumented(input, t, code)
    ensures Genuine(hooks, t) && ExecCode(hooks, t, code)
  {
    if Bypass(input) {
      code, t := RunBypassed(input, hooks);
    } else if !hooks.fingerprint([]) {
      code, t := RunWithoutFingerprint(input, hooks);
    } else {
      code, t := RunWithBackends(input, hooks);
    }
    RunIsAsDocumented(input, t, code);
  }

  method RunWithBackends(input: Input, hooks: Hooks) returns (code: int, t: Trace)
    requires !Bypass(input) && hooks.fingerprint([])
    ensures Finished(input, hooks, t, code) && t != [] && t[0].Fingerprint?
  {
    var chain, conn;
    t, chain, conn := Ask(input, hooks);
    if chain == [] {
      OpeningChain(input, t, chain);
      WalkedAll(input, hooks, t, chain, 0);
      EndGivingUp(input, t, NoBackend);
      Append(hooks, t, GaveUp(NoBackend));
      return 1, t + [GaveUp(NoBackend)];
    }
    code, t := Walk(input, hooks, t, chain, conn);
  }

  /** One backend of the chain. */
  method Attempt(input: Input, hooks: Hooks, t: Trace, chain: seq<Backend>, n: nat, conn: bool)
    returns (over: bool, code: int, t': Trace)
    requires Walking(input, hooks, t, chain, n) && n < |chain| && !Bypass(input) && (chain[n].Remote? ==> conn)
    ensures t <= t'
    ensures if over then Finished(input, hooks, t', code) else Walking(input, hooks, t', chain, n + 1)
  {
    var b := chain[n];
    assert b in chain && Permitted(t, b);
    if b.Plain? {
      code, t' := AttemptPlain(input, hooks, t, chain, n);
      return true, code, t';
    }
    var before, sent;
    if b.Remote? {
      before, sent := TryRemote(input, hooks, t);
    } else {
      before, sent := TryLocal(input, hooks, t);
    }
    over, code, t' := false, 1, before;
    if sent.Some? {
      over, code, t' := Settle(input, hooks, before, sent.value);
    }
    if !over {
      WalkOn(input, hooks, t, chain, n, t');
    }
  }

  method AttemptPlain(input: Input, hooks: Hooks, t: Trace, chain: seq<Backend>, n: nat) returns (code: int, t': Trace)
    requires Walking(input, hooks, t, chain, n) && n < |chain| && !Bypass(input) && chain[n].Plain?
    ensures t <= t' && Finished(input, hooks, t', code)
  {
    WalkedAll(input, hooks, t, chain, n);
    PlainMeansAuto(input, t, chain, n);
    EndInExec(input, t, hooks.exec(t + TouchIf(input, Cwd)));
    code, t' := ExecHere(input, hooks, t);
    assert t'[..|t'| - 1] == t + TouchIf(input, Cwd);
  }

  lemma PlainMeansAuto(input: Input, t: Trace, chain: seq<Backend>, n: nat)
    requires Opening(input, t, chain) && n < |chain| && chain[n].Plain? && !Bypass(input)
    ensures input.mode.AutoMode?
  {
    OpeningChain(input, t, chain);
    assert chain[n] in chain;
  }

  /** The loop over the chain; `connected` is the probe's connection, taken by the remote attempt. */
  method Walk(input: Input, hooks: Hooks, start: Trace, chain: seq<Backend>, connected: bool)
    returns (code: int, t: Trace)
    requires Walking(input, hooks, start, chain, 0) && !Bypass(input) && (Remote in chain ==> connected) && chain != []
    ensures Finished(input, hooks, t, code) && start <= t
  {
    t := start;
    var n, conn := 0, connected;
    OpeningChain(input, t, chain);
    while n < |chain|
      invariant Walking(input, hooks, t, chain, n) && start <= t
      invariant n == 0 && Remote in chain ==> conn
    {
      assert chain[n] in chain;
      RemoteIsFirst(chain, n);
      var over, c, t' := Attempt(input, hooks, t, chain, n, conn);
      if over {
        return c, t';
      }
      conn := conn && !chain[n].Remote?;
      t, n := t', n + 1;
    }
    code, t := GiveUp(input, hooks, t, chain);
  }

  method GiveUp(input: Input, hooks: Hooks, t: Trace, chain: seq<Backend>) returns (code: int, t': Trace)
    requires Walking(input, hooks, t, chain, |chain|) && !Bypass(input) && chain != []
    ensures Finished(input, hooks, t', code) && t <= t'
  {
    MayGiveUp(input, hooks, t, chain);
    EndGivingUp(input, t, EveryBackendFailed);
    Append(hooks, t, GaveUp(EveryBackendFailed));
    return 1, t + [GaveUp(EveryBackendFailed)];
  }

  /** Every backend of the chain failed, so plain cargo was not among them. */
  lemma MayGiveUp(input: Input, hooks: Hooks, t: Trace, chain: seq<Backend>)
    requires Walking(input, hooks, t, chain, |chain|) && chain != []
    ensures Exhausted(t) && !input.mode.AutoMode? && Because(t, EveryBackendFailed)
  {
    OpeningChain(input, t, chain);
    WalkedAll(input, hooks, t, chain, |chain|);
    PlainNeverFails(t, chain);
    assert Chose(chain) in t;
  }

  lemma PlainNeverFails(t: Trace, chain: seq<Backend>)
    requires chain != [] && forall k :: 0 <= k < |chain| ==> Failed(t, chain[k])
    ensures chain[|chain| - 1] != Plain
  {
    assert Failed(t, chain[|chain| - 1]);
  }

  /** After a submission whose last message was a toolchain mismatch, under a toolchain contract, comes the message and
      exit 1, whatever else the hooks have in store. */
  lemma MismatchMessageIsFinal(input: Input, hooks: Hooks, t: Trace, code: int, i: nat, n: nat)
    requires Guarantees(input, t, code) && i < |t| && t[i].Submitted? && (input.pinned || input.override.Some?)
    requires var script := hooks.script(t[..i]);
      && B.Faithful(script, n, t[i].log, t[i].outcome) && script.sendOk && n > 0
      && script.incoming[n - 1].Received? && script.incoming[n - 1].event.Rejected?
      && script.incoming[n - 1].event.reason.Mismatch?
    ensures |t| == i + 2 && t[i + 1] == Report(true) && code == 1
  {
    B.OutcomeExactly(hooks.script(t[..i]), n, t[i].log, t[i].outcome);
  }

  // ------------------------------------------------------------------------------------------
  // The guarantees in the words of the documentation

  /** `argv[1]` is `+<toolchain>`, the only place cargo takes one. */
  function OverrideOf(argv: seq<string>): Option<string> {
    if |argv| > 1 && |argv[1]| > 1 && argv[1][0] == '+' then Some(argv[1][1..]) else None
  }

  /** The subcommand is the word after the program, or after the toolchain override if there is one. */
  lemma SubcommandSkipsOverride(input: Input, program: string, toolchain: string, rest: seq<string>)
    requires input.override == OverrideOf(input.argv)
    requires input.argv == [program] + rest || (toolchain != "" && input.argv == [program, "+" + toolchain] + rest)
    requires input.argv == [program] + rest ==> rest == [] || |rest[0]| < 2 || rest[0][0] != '+'
    ensures Subcommand(input) == if rest == [] then None else Some(rest[0])
  {
    if input.argv == [program, "+" + toolchain] + rest && toolchain != "" {
      assert input.argv[1] == "+" + toolchain;
      assert rest != [] ==> input.argv[2] == rest[0];
    } else {
      assert rest != [] ==> input.argv[1] == rest[0];
    }
  }

  predicate Is(input: Input, s: string) {
    Subcommand(input) == Some(s)
  }

  /** The subcommand compiles, and cargo policy and configuration ask for touches. */
  predicate TouchCalledFor(input: Input) {
    && input.cargoPolicy && input.touch
    && (Is(input, "bench") || Is(input, "build") || Is(input, "check") || Is(input, "clippy") || Is(input, "doc")
        || Is(input, "run") || Is(input, "test"))
  }

  /** Plain mode, or under cargo policy: no subcommand, a leading flag, a listed subcommand. */
  predicate StaysHere(input: Input) {
    var sub := Subcommand(input);
    || input.mode == PlainMode
    || (input.cargoPolicy && (sub == None || (sub.value != "" && sub.value[0] == '-')
                              || sub.value in PASSTHROUGH || sub.value in input.localSubcommands))
  }

  lemma PolicySpelled(input: Input)
    ensures WantsTouch(input) <==> TouchCalledFor(input)
    ensures Bypass(input) <==> StaysHere(input)
  {
  }

  lemma LinksSpelled(input: Input)
    ensures Links(input) <==> input.cargoPolicy && Is(input, "build") && input.pullAndLink
  {
  }

  /** A run as the documentation describes it. */
  ghost predicate AsDocumented(input: Input, t: Trace, code: int) {
    && (StaysHere(input) ==> Execs(t) && forall e :: e in t ==> e.Touch? || e.Exec?)
    && (!StaysHere(input) ==> t != [] && t[0].Fingerprint?)
    && (Touches(t) <==> TouchCalledFor(input) && (Execs(t) || JobDoneWell(t)))
    && (forall i :: 0 <= i < |t| && Done(t[i]) ==> EndsWithJob(input, t, code, t[i].backend, t[i].outcome.status))
  }

  /** The job's status is the exit code, a signal counting 128 more; a successful remote `cargo build` is linked here
      instead if the policy says so. */
  ghost predicate EndsWithJob(input: Input, t: Trace, code: int, backend: Backend, status: J.ExitStatus) {
    if status == J.Code(0) && backend == Remote && input.cargoPolicy && Is(input, "build") && input.pullAndLink then
      t != [] && t[|t| - 1] == Exec
    else
      Exec !in t && code == match status case Code(c) => c case Signal(n) => 128 + n
  }

  lemma RunIsAsDocumented(input: Input, t: Trace, code: int)
    requires Guarantees(input, t, code) && (!Bypass(input) ==> t != [] && t[0].Fingerprint?)
    ensures AsDocumented(input, t, code)
  {
    PolicySpelled(input);
    forall i | 0 <= i < |t| && Done(t[i]) ensures EndsWithJob(input, t, code, t[i].backend, t[i].outcome.status) {
      JobAsDocumented(input, t, code, i);
    }
  }

  lemma JobAsDocumented(input: Input, t: Trace, code: int, i: nat)
    requires JobIsFinal(input, t, code) && i < |t| && Done(t[i])
    ensures EndsWithJob(input, t, code, t[i].backend, t[i].outcome.status)
  {
    LinksSpelled(input);
  }

  /** After a submission that ended in the job's exit, the run ends with that status - or links here. */
  lemma ExitMessageIsFinal(input: Input, hooks: Hooks, t: Trace, code: int, i: nat, n: nat, status: J.ExitStatus)
    requires Guarantees(input, t, code) && i < |t| && t[i].Submitted?
    requires var script := hooks.script(t[..i]);
      && B.Faithful(script, n, t[i].log, t[i].outcome) && script.sendOk && n > 0
      && script.incoming[n - 1].Received? && script.incoming[n - 1].event.Exited?
      && script.incoming[n - 1].event.status == status
    ensures EndsWithJob(input, t, code, t[i].backend, status)
  {
    B.OutcomeExactly(hooks.script(t[..i]), n, t[i].log, t[i].outcome);
    JobAsDocumented(input, t, code, i);
  }
}
