/** Backend selection: `select`, `remote_skip` and `local_skip` of crates/rbs-client/src/backend.rs. */
module Backends {
  import opened Options

  datatype Mode = AutoMode | RemoteMode | LocalMode | PlainMode

  datatype Backend = Remote | Local | Plain

  /** Round-trip times in nanoseconds. */
  datatype RemoteProbe = Probed(rtt: nat, accepting: bool, queued: nat, running: nat) | Failed

  datatype SkipReason =
    | Disabled
    | NotProbed
    | ProbeFailed
    | RttTooHigh(rtt: nat, max: nat)
    | NotAccepting(queued: nat, running: nat)

  datatype Skip = Skip(backend: Backend, reason: SkipReason)

  datatype Config = Config(remoteEnabled: bool, maxRttMs: nat, localEnabled: bool)

  function RemoteSkip(remote: Option<RemoteProbe>, cfg: Config): Option<SkipReason> {
    if !cfg.remoteEnabled then Some(Disabled)
    else
      match remote
      case None => Some(NotProbed)
      case Some(Failed) => Some(ProbeFailed)
      case Some(Probed(rtt, accepting, queued, running)) =>
        if rtt > cfg.maxRttMs * 1_000_000 then Some(RttTooHigh(rtt, cfg.maxRttMs * 1_000_000))
        else if !accepting then Some(NotAccepting(queued, running))
        else None
  }

  function LocalSkip(available: bool, cfg: Config): Option<SkipReason> {
    if !cfg.localEnabled || !available then Some(Disabled) else None
  }

  // ------------------------------------------------------------------------------------------
  // The table the decision follows

  /** "remote ok" = enabled, probe succeeded, link fast enough, accepting. */
  predicate Usable(b: Backend, remote: Option<RemoteProbe>, available: bool, cfg: Config) {
    match b
    case Remote =>
      && cfg.remoteEnabled && remote.Some? && remote.value.Probed?
      && remote.value.rtt <= cfg.maxRttMs * 1_000_000 && remote.value.accepting
    case Local => cfg.localEnabled && available
    case Plain => true
  }

  /** The backends a mode may use; auto may use all of them. */
  predicate Considers(mode: Mode, b: Backend) {
    match mode
    case AutoMode => true
    case RemoteMode => b.Remote?
    case LocalMode => b.Local?
    case PlainMode => b.Plain?
  }

  function Rank(b: Backend): nat {
    match b case Remote => 0 case Local => 1 case Plain => 2
  }

  ghost predicate Preferred(chain: seq<Backend>) {
    forall i, j :: 0 <= i < j < |chain| ==> Rank(chain[i]) < Rank(chain[j])
  }

  /** `chain` holds the considered backends that are usable, in order of preference. */
  ghost predicate IsChain(chain: seq<Backend>, mode: Mode, remote: Option<RemoteProbe>, available: bool, cfg: Config) {
    Preferred(chain) && forall b :: b in chain <==> Considers(mode, b) && Usable(b, remote, available, cfg)
  }

  function Skipped(skipped: seq<Skip>): seq<Backend> {
    seq(|skipped|, i requires 0 <= i < |skipped| => skipped[i].backend)
  }

  /** The reason is the first thing in the way of the backend. */
  predicate Explains(s: Skip, remote: Option<RemoteProbe>, available: bool, cfg: Config) {
    match s.backend
    case Remote =>
      (match s.reason
       case Disabled => !cfg.remoteEnabled
       case NotProbed => cfg.remoteEnabled && remote.None?
       case ProbeFailed => cfg.remoteEnabled && remote == Some(Failed)
       case RttTooHigh(rtt, max) =>
         && cfg.remoteEnabled && remote.Some? && remote.value.Probed?
         && rtt == remote.value.rtt > max == cfg.maxRttMs * 1_000_000
       case NotAccepting(queued, running) =>
         && cfg.remoteEnabled && remote.Some? && remote.value.Probed? && remote.value.rtt <= cfg.maxRttMs * 1_000_000
         && !remote.value.accepting && queued == remote.value.queued && running == remote.value.running)
    case Local => s.reason.Disabled? && !(cfg.localEnabled && available)
    case Plain => false
  }

  /** `skipped` holds the considered backends that are not usable, in order, each with its reason. */
  ghost predicate IsSkipped(skipped: seq<Skip>, mode: Mode, remote: Option<RemoteProbe>, available: bool, cfg: Config) {
    && Preferred(Skipped(skipped))
    && (forall b :: b in Skipped(skipped) <==> Considers(mode, b) && !Usable(b, remote, available, cfg))
    && (forall i :: 0 <= i < |skipped| ==> Explains(skipped[i], remote, available, cfg))
  }

  /** The state of the decision once the backends in `seen` have been considered. */
  ghost predicate Decided(chain: seq<Backend>, skipped: seq<Skip>, seen: set<Backend>,
                          remote: Option<RemoteProbe>, available: bool, cfg: Config) {
    && Preferred(chain) && Preferred(Skipped(skipped))
    && (forall i :: 0 <= i < |skipped| ==> Explains(skipped[i], remote, available, cfg))
    && (forall b :: b in chain <==> b in seen && Usable(b, remote, available, cfg))
    && (forall b :: b in Skipped(skipped) <==> b in seen && !Usable(b, remote, available, cfg))
  }

  method Consider(chain: seq<Backend>, skipped: seq<Skip>, b: Backend, skip: Option<SkipReason>,
                  ghost seen: set<Backend>, ghost remote: Option<RemoteProbe>, ghost available: bool, ghost cfg: Config)
    returns (chain': seq<Backend>, skipped': seq<Skip>)
    requires Decided(chain, skipped, seen, remote, available, cfg)
    requires forall x :: x in seen ==> Rank(x) < Rank(b)
    requires skip.None? <==> Usable(b, remote, available, cfg)
    requires skip.Some? ==> Explains(Skip(b, skip.value), remote, available, cfg)
    ensures Decided(chain', skipped', seen + {b}, remote, available, cfg)
  {
    chain', skipped' := chain, skipped;
    match skip {
      case None =>
        assert forall i :: 0 <= i < |chain| ==> chain[i] in chain;
        chain' := chain + [b];
      case Some(reason) =>
        assert forall i :: 0 <= i < |skipped| ==> Skipped(skipped)[i] in Skipped(skipped);
        skipped' := skipped + [Skip(b, reason)];
        assert Skipped(skipped') == Skipped(skipped) + [b];
    }
  }

  lemma SkipsExplained(remote: Option<RemoteProbe>, available: bool, cfg: Config)
    ensures RemoteSkip(remote, cfg).None? <==> Usable(Remote, remote, available, cfg)
    ensures RemoteSkip(remote, cfg).Some? ==>
        Explains(Skip(Remote, RemoteSkip(remote, cfg).value), remote, available, cfg)
    ensures LocalSkip(available, cfg).None? <==> Usable(Local, remote, available, cfg)
    ensures LocalSkip(available, cfg).Some? ==>
        Explains(Skip(Local, LocalSkip(available, cfg).value), remote, available, cfg)
  {
  }

  lemma NothingDecided(remote: Option<RemoteProbe>, available: bool, cfg: Config)
    ensures Decided([], [], {}, remote, available, cfg)
  {
  }

  lemma AllDecided(chain: seq<Backend>, skipped: seq<Skip>, seen: set<Backend>, mode: Mode,
                   remote: Option<RemoteProbe>, available: bool, cfg: Config)
    requires Decided(chain, skipped, seen, remote, available, cfg) && forall b :: b in seen <==> Considers(mode, b)
    ensures IsChain(chain, mode, remote, available, cfg) && IsSkipped(skipped, mode, remote, available, cfg)
  {
  }

  method SelectAuto(remote: Option<RemoteProbe>, available: bool, cfg: Config)
    returns (chain: seq<Backend>, skipped: seq<Skip>)
    ensures Decided(chain, skipped, {Remote, Local, Plain}, remote, available, cfg)
  {
    NothingDecided(remote, available, cfg);
    SkipsExplained(remote, available, cfg);
    chain, skipped := Consider([], [], Remote, RemoteSkip(remote, cfg), {}, remote, available, cfg);
    chain, skipped := Consider(chain, skipped, Local, LocalSkip(available, cfg), {Remote}, remote, available, cfg);
    chain, skipped := Consider(chain, skipped, Plain, None, {Remote, Local}, remote, available, cfg);
  }

  method SelectForced(b: Backend, remote: Option<RemoteProbe>, available: bool, cfg: Config)
    returns (chain: seq<Backend>, skipped: seq<Skip>)
    ensures Decided(chain, skipped, {b}, remote, available, cfg)
  {
    NothingDecided(remote, available, cfg);
    SkipsExplained(remote, available, cfg);
    var skip := match b case Remote => RemoteSkip(remote, cfg) case Local => LocalSkip(available,
        cfg) case Plain => None;
    chain, skipped := Consider([], [], b, skip, {}, remote, available, cfg);
    assert {} + {b} == {b};
  }

  method Select(mode: Mode, remote: Option<RemoteProbe>, available: bool, cfg: Config)
    returns (chain: seq<Backend>, skipped: seq<Skip>)
    ensures IsChain(chain, mode, remote, available, cfg)
    ensures IsSkipped(skipped, mode, remote, available, cfg)
  {
    match mode {
      case AutoMode =>
        chain, skipped := SelectAuto(remote, available, cfg);
        forall b ensures b in {Remote, Local, Plain} <==> Considers(mode, b) {
          match b
          case Remote =>
          case Local =>
          case Plain =>
        }
        AllDecided(chain, skipped, {Remote, Local, Plain}, mode, remote, available, cfg);
      case RemoteMode =>
        chain, skipped := SelectForced(Remote, remote, available, cfg);
        AllDecided(chain, skipped, {Remote}, mode, remote, available, cfg);
      case LocalMode =>
        chain, skipped := SelectForced(Local, remote, available, cfg);
        AllDecided(chain, skipped, {Local}, mode, remote, available, cfg);
      case PlainMode =>
        chain, skipped := SelectForced(Plain, remote, available, cfg);
        AllDecided(chain, skipped, {Plain}, mode, remote, available, cfg);
    }
  }

  /** Plain is always usable and comes last, so an auto chain is never empty and ends in it. */
  lemma AutoEndsInPlain(chain: seq<Backend>, remote: Option<RemoteProbe>, available: bool, cfg: Config)
    requires IsChain(chain, AutoMode, remote, available, cfg)
    ensures chain != [] && chain[|chain| - 1] == Plain
  {
    assert Plain in chain;
    var i :| 0 <= i < |chain| && chain[i] == Plain;
    if i < |chain| - 1 {
      assert Rank(chain[i]) < Rank(chain[|chain| - 1]);
    }
  }

  /** A chain is determined by what it holds. */
  lemma {:induction false} ChainUnique(a: seq<Backend>, b: seq<Backend>)
    requires Preferred(a) && Preferred(b) && forall x :: x in a <==> x in b
    ensures a == b
  {
    assert |b| > 0 ==> b[0] in b;
    if a != [] {
      assert a[0] in a;
      assert b != [] && b[0] in b;
      var i :| 0 <= i < |a| && a[i] == b[0];
      var j :| 0 <= j < |b| && b[j] == a[0];
      assert a[0] == b[0];
      var c, d := a[1..], b[1..];
      forall x ensures x in c <==> x in d {
        assert x in c <==> x in a && x != a[0];
        assert x in d <==> x in b && x != b[0];
      }
      ChainUnique(c, d);
    }
  }

  /** A forced mode's chain is its own backend or empty. */
  lemma ForcedChain(chain: seq<Backend>, mode: Mode, remote: Option<RemoteProbe>, available: bool, cfg: Config)
    requires IsChain(chain, mode, remote, available, cfg) && !mode.AutoMode?
    ensures |chain| <= 1
    ensures chain != [] ==> Considers(mode, chain[0])
  {
    forall i | 0 <= i < |chain| ensures Considers(mode, chain[i]) {
      assert chain[i] in chain;
    }
    if |chain| > 1 {
      SameRank(chain, mode, 0, 1);
      assert false;
    }
  }

  lemma SameRank(chain: seq<Backend>, mode: Mode, i: nat, j: nat)
    requires i < |chain| && j < |chain| && !mode.AutoMode? && Considers(mode, chain[i]) && Considers(mode, chain[j])
    ensures Rank(chain[i]) == Rank(chain[j])
  {
  }

  /** The decision table: auto prefers the remote, then the local server, then plain cargo; a forced mode has its own
      backend or nothing. */
  function Table(mode: Mode, remoteOk: bool, localOk: bool): seq<Backend> {
    match mode
    case AutoMode => (if remoteOk then [Remote] else []) + (if localOk then [Local] else []) + [Plain]
    case RemoteMode => if remoteOk then [Remote] else []
    case LocalMode => if localOk then [Local] else []
    case PlainMode => [Plain]
  }

  lemma TableHolds(mode: Mode, remoteOk: bool, localOk: bool, b: Backend)
    ensures b in Table(mode, remoteOk, localOk) <==>
      match b
      case Remote => remoteOk && (mode.AutoMode? || mode.RemoteMode?)
      case Local => localOk && (mode.AutoMode? || mode.LocalMode?)
      case Plain => mode.AutoMode? || mode.PlainMode?
  {
    match b
    case Remote =>
    case Local =>
    case Plain =>
  }

  lemma TablePreferred(mode: Mode, remoteOk: bool, localOk: bool)
    ensures Preferred(Table(mode, remoteOk, localOk))
  {
  }

  lemma ChainIsTable(chain: seq<Backend>, mode: Mode, remote: Option<RemoteProbe>, available: bool, cfg: Config,
                     remoteOk: bool, localOk: bool)
    requires IsChain(chain, mode, remote, available, cfg)
    requires remoteOk == (cfg.remoteEnabled && remote.Some? && remote.value.Probed? &&
                          remote.value.rtt <= cfg.maxRttMs * 1_000_000 && remote.value.accepting)
    requires localOk == (cfg.localEnabled && available)
    ensures chain == Table(mode, remoteOk, localOk)
  {
    forall b ensures b in chain <==> b in Table(mode, remoteOk, localOk) {
      TableHolds(mode, remoteOk, localOk, b);
    }
    TablePreferred(mode, remoteOk, localOk);
    ChainUnique(chain, Table(mode, remoteOk, localOk));
  }
}
