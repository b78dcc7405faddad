/** The store-touch protocol of crates/rbs-store/src/touch.rs: `copy(key -> tmp)`, `copy(tmp -> key)`,
    `delete(tmp)`, interleaved with any number of other touches, with garbage collection deletes,
    with failing operations and with crashes. */
module Touch {
  import opened Options
  import opened ObjectKeys
  import P = Planner
  import G = GarbageCollection

  datatype Stored = Stored(content: string, modified: nat)

  type Store = map<string, Stored>

  predicate IsTmp(key: string) {
    EndsWith(key, TOUCH_TMP_SUFFIX)
  }

  function Tmp(key: string): (tmp: string)
    ensures IsTmp(tmp)
  {
    key + TOUCH_TMP_SUFFIX
  }

  /** The key a store key is a copy of. */
  function Base(key: string): string {
    if IsTmp(key) then key[..|key| - |TOUCH_TMP_SUFFIX|] else key
  }

  lemma TmpBase(key: string)
    ensures Base(Tmp(key)) == key
  {
  }

  // ------------------------------------------------------------------------------------------
  // The protocol

  /** How a store operation ends; a failed one may still have taken effect. */
  datatype Result = Done | Missing | Failed(applied: bool)

  datatype Back = Copied(at: nat) | BackMissing | BackFailed

  datatype Outcome = Touched(at: nat) | Gone | TouchFailed

  datatype Progress = Begun | CopiedOut | Cleaning(back: Back) | Over(outcome: Outcome) | Crashed

  datatype TouchTask = TouchTask(key: string, progress: Progress)

  /** `collected` are the keys deleted by garbage collection; `stranded` the keys whose intermediate a
      touch may have left behind. */
  datatype State = State(store: Store, tasks: map<nat, TouchTask>, clock: nat, collected: set<string>,
      stranded: set<string>)

  datatype Action =
    | Begin(t: nat, key: string)
    | CopyOut(t: nat, result: Result)
    | CopyBack(t: nat, result: Result)
    | DeleteTmp(t: nat, result: Result)
    | Crash(t: nat)
    | Collect(key: string)
    | Tick

  predicate Possible(store: Store, from: string, result: Result) {
    match result
    case Done => from in store
    case Missing => from !in store
    case Failed(applied) => applied ==> from in store
  }

  predicate Takes(result: Result) {
    result.Done? || (result.Failed? && result.applied)
  }

  predicate InProgress(st: State, t: nat, p: Progress) {
    t in st.tasks && st.tasks[t].progress == p
  }

  predicate Enabled(st: State, a: Action) {
    match a
    case Begin(t, key) => t !in st.tasks && !IsTmp(key)
    case CopyOut(t, r) => InProgress(st, t, Begun) && Possible(st.store, st.tasks[t].key, r)
    case CopyBack(t, r) => InProgress(st, t, CopiedOut) && Possible(st.store, Tmp(st.tasks[t].key), r)
    case DeleteTmp(t, r) => t in st.tasks && st.tasks[t].progress.Cleaning? &&
        Possible(st.store, Tmp(st.tasks[t].key), r)
    case Crash(t) => t in st.tasks && !st.tasks[t].progress.Over?
    case Collect(_) => true
    case Tick => true
  }

  function Copy(st: State, from: string, to: string, result: Result): Store
    requires Possible(st.store, from, result)
  {
    if Takes(result) then st.store[to := Stored(st.store[from].content, st.clock)] else st.store
  }

  function SetTask(st: State, t: nat, p: Progress): State
    requires t in st.tasks
  {
    st.(tasks := st.tasks[t := st.tasks[t].(progress := p)])
  }

  function OutcomeOf(back: Back): Outcome {
    match back
    case Copied(at) => Touched(at)
    case BackMissing => Gone
    case BackFailed => TouchFailed
  }

  function Next(st: State, a: Action): State
    requires Enabled(st, a)
  {
    match a
    case Begin(t, key) => st.(tasks := st.tasks[t := TouchTask(key, Begun)])
    case CopyOut(t, r) =>
      var key := st.tasks[t].key;
      var st' := st.(store := Copy(st, key, Tmp(key), r),
                     stranded := if r == Failed(true) then st.stranded + {key} else st.stranded);
      SetTask(st', t, match r
                      case Done => CopiedOut
                      case Missing => Over(Gone)
                      case Failed(_) => Over(TouchFailed))
    case CopyBack(t, r) =>
      var key := st.tasks[t].key;
      SetTask(st.(store := Copy(st, Tmp(key), key, r)), t,
              Cleaning(match r
                       case Done => Copied(st.clock)
                       case Missing => BackMissing
                       case Failed(_) => BackFailed))
    case DeleteTmp(t, r) =>
      var key := st.tasks[t].key;
      var st' := st.(store := if Takes(r) then st.store - {Tmp(key)} else st.store,
                     stranded := if r == Failed(false) then st.stranded + {key} else st.stranded);
      SetTask(st', t, Over(OutcomeOf(st.tasks[t].progress.back)))
    case Crash(t) =>
      SetTask(st.(stranded := st.stranded + {st.tasks[t].key}), t, Crashed)
    case Collect(key) => st.(store := st.store - {key}, collected := st.collected + {key})
    case Tick => st.(clock := st.clock + 1)
  }

  // ------------------------------------------------------------------------------------------
  // Safety

  predicate HoldsTmp(task: TouchTask) {
    task.progress.CopiedOut? || task.progress.Cleaning?
  }

  /** Every object, intermediate or not, has the content its key had at the start. */
  ghost predicate ContentKept(st: State, orig: map<string, string>) {
    forall k :: k in st.store ==> Base(k) in orig && st.store[k].content == orig[Base(k)]
  }

  /** A key of the start is absent only if garbage collection deleted it. */
  ghost predicate NothingLost(st: State, orig: map<string, string>) {
    forall k :: k in orig && !IsTmp(k) ==> k in st.store || k in st.collected
  }

  ghost predicate InFlight(st: State, key: string) {
    exists t :: t in st.tasks && st.tasks[t].key == key && HoldsTmp(st.tasks[t])
  }

  /** An intermediate exists only while a touch is between copy-out and delete, or was stranded. */
  ghost predicate TmpAccounted(st: State) {
    forall k :: Tmp(k) in st.store ==> k in st.stranded || InFlight(st, k)
  }

  /** After a successful touch the object, if present, is at least as recent as its copy-back. */
  ghost predicate Refreshed(st: State) {
    && (forall k :: k in st.store ==> st.store[k].modified <= st.clock)
    && (forall t :: t in st.tasks && TouchedAt(st.tasks[t]).Some? ==>
          && TouchedAt(st.tasks[t]).value <= st.clock
          && (st.tasks[t].key in st.store ==> st.store[st.tasks[t].key].modified >= TouchedAt(st.tasks[t]).value))
  }

  function TouchedAt(task: TouchTask): Option<nat> {
    match task.progress
    case Cleaning(Copied(at)) => Some(at)
    case Over(Touched(at)) => Some(at)
    case _ => None
  }

  ghost predicate PlainTargets(st: State) {
    forall t :: t in st.tasks ==> !IsTmp(st.tasks[t].key)
  }

  ghost predicate Safe(st: State, orig: map<string, string>) {
    ContentKept(st, orig) && NothingLost(st, orig) && TmpAccounted(st) && Refreshed(st) && PlainTargets(st)
  }

  lemma StepKeepsContent(st: State, orig: map<string, string>, a: Action)
    requires ContentKept(st, orig) && PlainTargets(st) && Enabled(st, a)
    ensures ContentKept(Next(st, a), orig) && PlainTargets(Next(st, a))
  {
    if a.CopyOut? || a.CopyBack? {
      TmpBase(st.tasks[a.t].key);
    }
  }

  lemma StepLosesNothing(st: State, orig: map<string, string>, a: Action)
    requires NothingLost(st, orig) && PlainTargets(st) && Enabled(st, a)
    ensures NothingLost(Next(st, a), orig)
  {
  }

  lemma StillInFlight(st: State, st': State, k: string)
    requires InFlight(st, k) && forall t :: t in st.tasks && HoldsTmp(st.tasks[t]) ==>
      t in st'.tasks && st'.tasks[t] == st.tasks[t]
    ensures InFlight(st', k)
  {
    var t :| t in st.tasks && st.tasks[t].key == k && HoldsTmp(st.tasks[t]);
    assert t in st'.tasks && st'.tasks[t].key == k;
  }

  lemma TmpInjective(a: string, b: string)
    requires Tmp(a) == Tmp(b)
    ensures a == b
  {
    TmpBase(a);
    TmpBase(b);
  }

  /** One task moves on, and keeps its intermediate accounted for. */
  lemma MovedOnAccounted(st: State, st': State, t: nat)
    requires TmpAccounted(st) && t in st.tasks && t in st'.tasks && st'.tasks == st.tasks[t := st'.tasks[t]]
    requires st'.tasks[t].key == st.tasks[t].key && st.stranded <= st'.stranded
    requires forall k :: Tmp(k) in st'.store ==> Tmp(k) in st.store || k == st.tasks[t].key
    requires Tmp(st.tasks[t].key) in st'.store ==>
               HoldsTmp(st'.tasks[t]) || st.tasks[t].key in st'.stranded || (Tmp(st.tasks[t].key) in st.store &&
                   !HoldsTmp(st.tasks[t]))
    ensures TmpAccounted(st')
  {
    forall k | Tmp(k) in st'.store ensures k in st'.stranded || InFlight(st', k) {
      var key := st.tasks[t].key;
      if k == key && HoldsTmp(st'.tasks[t]) {
        assert st'.tasks[t].key == k;
      } else if k !in st'.stranded {
        assert Tmp(k) in st.store && InFlight(st, k);
        var u :| u in st.tasks && st.tasks[u].key == k && HoldsTmp(st.tasks[u]);
        assert u != t;
        assert u in st'.tasks && st'.tasks[u] == st.tasks[u];
      }
    }
  }

  lemma CopyAddsOnly(st: State, from: string, to: string, r: Result, k: string)
    requires Possible(st.store, from, r) && k in Copy(st, from, to, r)
    ensures k in st.store || (k == to && Takes(r))
  {
  }

  lemma StepKeepsTmpAccounted(st: State, a: Action)
    requires TmpAccounted(st) && PlainTargets(st) && Enabled(st, a)
    ensures TmpAccounted(Next(st, a))
  {
    var st' := Next(st, a);
    match a
    case Begin(t, key) =>
      forall k | Tmp(k) in st'.store && k !in st'.stranded ensures InFlight(st', k) {
        StillInFlight(st, st', k);
      }
    case CopyOut(t, r) =>
      var key := st.tasks[t].key;
      forall k | Tmp(k) in st'.store ensures Tmp(k) in st.store || k == key {
        CopyAddsOnly(st, key, Tmp(key), r, Tmp(k));
        if Tmp(k) == Tmp(key) {
          TmpInjective(k, key);
        }
      }
      MovedOnAccounted(st, st', t);
    case CopyBack(t, r) =>
      MovedOnAccounted(st, st', t);
    case DeleteTmp(t, r) =>
      MovedOnAccounted(st, st', t);
    case Crash(t) =>
      MovedOnAccounted(st, st', t);
    case Collect(key) =>
      forall k | Tmp(k) in st'.store && k !in st'.stranded ensures InFlight(st', k) {
        StillInFlight(st, st', k);
      }
    case Tick =>
      forall k | Tmp(k) in st'.store && k !in st'.stranded ensures InFlight(st', k) {
        StillInFlight(st, st', k);
      }
  }

  /** Writes carry the current time, so a store that only gains such writes or loses keys stays fresh. */
  lemma FreshStore(st: State, st': State)
    requires Refreshed(st) && st'.clock == st.clock
    requires forall k :: k in st'.store ==>
      (k in st.store && st'.store[k] == st.store[k]) || st'.store[k].modified == st.clock
    requires forall t :: t in st'.tasks && TouchedAt(st'.tasks[t]).Some? ==>
               || (t in st.tasks && st'.tasks[t].key == st.tasks[t].key &&
                   TouchedAt(st'.tasks[t]) == TouchedAt(st.tasks[t]))
               || (TouchedAt(st'.tasks[t]).value == st.clock
                   && (st'.tasks[t].key in st'.store ==> st'.store[st'.tasks[t].key].modified == st.clock))
    ensures Refreshed(st')
  {
  }

  lemma StepKeepsRefreshed(st: State, a: Action)
    requires Refreshed(st) && Enabled(st, a)
    ensures Refreshed(Next(st, a))
  {
    if !a.Tick? {
      FreshStore(st, Next(st, a));
    }
  }

  /** The store at the start: plain objects and, possibly, stranded intermediates of earlier touches. */
  ghost predicate Start(st: State, orig: map<string, string>) {
    && st.tasks == map[] && st.collected == {}
    && ContentKept(st, orig)
    && (forall k :: k in orig && !IsTmp(k) ==> k in st.store)
    && (forall k :: Tmp(k) in st.store ==> k in st.stranded)
    && (forall k :: k in st.store ==> st.store[k].modified <= st.clock)
  }

  ghost predicate StepAt(run: seq<State>, i: nat)
    requires i + 1 < |run|
  {
    exists a :: Enabled(run[i], a) && Next(run[i], a) == run[i + 1]
  }

  ghost predicate IsRun(run: seq<State>, orig: map<string, string>) {
    run != [] && Start(run[0], orig) && forall i: nat :: i + 1 < |run| ==> StepAt(run, i)
  }

  /** Touch safety: in every state of every run any surviving copy has the original content, a key is
      missing only if garbage collection deleted it, intermediates are accounted for, and a touch that
      reported success has refreshed the object. */
  lemma {:induction false} TouchSafety(run: seq<State>, orig: map<string, string>, i: nat)
    requires IsRun(run, orig) && i < |run|
    ensures Safe(run[i], orig)
  {
    if i > 0 {
      TouchSafety(run, orig, i - 1);
      assert StepAt(run, i - 1);
      var a :| Enabled(run[i - 1], a) && Next(run[i - 1], a) == run[i];
      StepKeepsContent(run[i - 1], orig, a);
      StepLosesNothing(run[i - 1], orig, a);
      StepKeepsTmpAccounted(run[i - 1], a);
      StepKeepsRefreshed(run[i - 1], a);
    }
  }

  ghost predicate Vanished(st: State, key: string) {
    key !in st.store && Tmp(key) !in st.store
  }

  lemma StepCannotRevive(st: State, a: Action, key: string)
    requires Enabled(st, a) && PlainTargets(st) && !IsTmp(key)
    ensures key !in st.store && key in Next(st, a).store ==> Tmp(key) in st.store
    ensures Vanished(st, key) ==> Vanished(Next(st, a), key)
  {
    if a.CopyOut? && Tmp(st.tasks[a.t].key) == Tmp(key) {
      TmpInjective(st.tasks[a.t].key, key);
    }
  }

  /** A collected key comes back only through an intermediate: with neither left, it is gone for good. */
  lemma {:induction false} VanishedForGood(run: seq<State>, orig: map<string, string>, i: nat, k: nat, key: string)
    requires IsRun(run, orig) && i <= k < |run| && !IsTmp(key) && Vanished(run[i], key)
    ensures Vanished(run[k], key)
  {
    if i < k {
      VanishedForGood(run, orig, i, k - 1, key);
      TouchSafety(run, orig, k - 1);
      assert StepAt(run, k - 1);
      var a :| Enabled(run[k - 1], a) && Next(run[k - 1], a) == run[k];
      StepCannotRevive(run[k - 1], a, key);
    }
  }

  // ------------------------------------------------------------------------------------------
  // Planning and running one touch

  predicate Stale(o: P.RemoteObject, cutoff: int) {
    !EndsWith(o.key, TOUCH_TMP_SUFFIX) && o.lastModified <= cutoff
  }

  function StaleKeys(objects: seq<P.RemoteObject>, cutoff: int): seq<string> {
    if objects == [] then []
    else
      var o := objects[|objects| - 1];
      StaleKeys(objects[..|objects| - 1], cutoff) + (if Stale(o, cutoff) then [o.key] else [])
  }

  function FreshCount(objects: seq<P.RemoteObject>, cutoff: int): nat {
    if objects == [] then 0
    else
      var o := objects[|objects| - 1];
      FreshCount(objects[..|objects| - 1], cutoff) + (if IsTmp(o.key) || Stale(o, cutoff) then 0 else 1)
  }

  ghost predicate SortedKeys(keys: seq<string>) {
    forall i, j :: 0 <= i < j < |keys| ==> !P.StringLess(keys[j], keys[i])
  }

  function InsertKey(keys: seq<string>, key: string): (r: seq<string>)
    ensures multiset(r) == multiset(keys) + multiset{key}
  {
    if keys == [] || P.StringLess(key, keys[0]) then [key] + keys
    else assert keys == [keys[0]] + keys[1..]; [keys[0]] + InsertKey(keys[1..], key)
  }

  lemma NotAfterTransitive(a: string, b: string, c: string)
    requires !P.StringLess(b, a) && !P.StringLess(c, b)
    ensures !P.StringLess(c, a)
  {
    P.StringLessOrder(a, b, c);
    P.StringLessOrder(c, a, b);
    P.StringLessOrder(b, c, a);
    P.StringLessOrder(b, a, c);
    P.StringLessOrder(c, b, a);
  }

  lemma {:induction false} InsertKeySorted(keys: seq<string>, key: string)
    requires SortedKeys(keys)
    ensures SortedKeys(InsertKey(keys, key))
  {
    if keys != [] {
      P.StringLessOrder(key, keys[0], key);
      if P.StringLess(key, keys[0]) {
        KeyBefore(keys, key);
      } else {
        InsertKeySorted(keys[1..], key);
        FirstBefore(keys, key);
      }
    }
  }

  lemma KeyBefore(keys: seq<string>, key: string)
    requires SortedKeys(keys) && keys != [] && P.StringLess(key, keys[0])
    ensures SortedKeys([key] + keys)
  {
    forall j | 0 <= j < |keys| ensures !P.StringLess(keys[j], key) {
      P.StringLessOrder(keys[0], key, keys[0]);
      NotAfterTransitive(key, keys[0], keys[j]);
    }
  }

  lemma FirstBefore(keys: seq<string>, key: string)
    requires SortedKeys(keys) && keys != [] && !P.StringLess(key, keys[0]) && SortedKeys(InsertKey(keys[1..], key))
    ensures SortedKeys([keys[0]] + InsertKey(keys[1..], key))
  {
    var first, rest := keys[0], keys[1..];
    var r := InsertKey(rest, key);
    forall j | 0 <= j < |r| ensures !P.StringLess(r[j], first) {
      InsertedKey(rest, key, j);
      if r[j] != key {
        var k :| 0 <= k < |rest| && rest[k] == r[j];
        assert keys[k + 1] == r[j];
      }
    }
    SortedAfter(first, r);
  }

  lemma InsertedKey(keys: seq<string>, key: string, j: nat)
    requires j < |InsertKey(keys, key)|
    ensures InsertKey(keys, key)[j] == key || InsertKey(keys, key)[j] in keys
  {
    var r := InsertKey(keys, key);
    assert r[j] in multiset(r);
  }

  lemma SortedAfter(first: string, keys: seq<string>)
    requires SortedKeys(keys) && forall j :: 0 <= j < |keys| ==> !P.StringLess(keys[j], first)
    ensures SortedKeys([first] + keys)
  {
  }

  /** The stale plain objects, sorted, and how many were fresh already. */
  method PlanTouch(objects: seq<P.RemoteObject>, cutoff: int) returns (touch: seq<string>, skippedFresh: nat)
    ensures SortedKeys(touch) && multiset(touch) == multiset(StaleKeys(objects, cutoff))
    ensures Picks(objects, cutoff, touch)
    ensures KeysDetermine(objects) ==>
      forall o :: o in objects ==> (o.key in touch <==> !IsTmp(o.key) && o.lastModified <= cutoff)
    ensures skippedFresh == |FreshPlaces(objects, cutoff)|
  {
    touch, skippedFresh := [], 0;
    for i := 0 to |objects|
      invariant SortedKeys(touch) && multiset(touch) == multiset(StaleKeys(objects[..i], cutoff))
      invariant skippedFresh == FreshCount(objects[..i], cutoff)
    {
      var o := objects[i];
      assert objects[..i + 1][..i] == objects[..i];
      if EndsWith(o.key, TOUCH_TMP_SUFFIX) {
        continue;
      }
      if o.lastModified <= cutoff {
        InsertKeySorted(touch, o.key);
        touch := InsertKey(touch, o.key);
      } else {
        skippedFresh := skippedFresh + 1;
      }
    }
    assert objects[..|objects|] == objects;
    StalePicks(objects, cutoff, touch);
    PicksByKey(objects, cutoff, touch);
    FreshCounted(objects, cutoff);
  }

  /** No two listed objects share a key, as in any listing of a store. */
  ghost predicate KeysDetermine(objects: seq<P.RemoteObject>) {
    forall a, b :: a in objects && b in objects && a.key == b.key ==> a == b
  }

  lemma PicksByKey(objects: seq<P.RemoteObject>, cutoff: int, touch: seq<string>)
    requires Picks(objects, cutoff, touch)
    ensures KeysDetermine(objects) ==>
      forall o :: o in objects ==> (o.key in touch <==> !IsTmp(o.key) && o.lastModified <= cutoff)
  {
  }

  /** `touch` holds the keys of the plain objects last modified at or before the cutoff, and no other key. */
  ghost predicate Picks(objects: seq<P.RemoteObject>, cutoff: int, touch: seq<string>) {
    forall key :: key in touch <==>
      exists o :: o in objects && o.key == key && !IsTmp(key) && o.lastModified <= cutoff
  }

  /** Where the listing has plain objects modified after the cutoff. */
  ghost function FreshPlaces(objects: seq<P.RemoteObject>, cutoff: int): set<nat> {
    set i: nat | i < |objects| && !IsTmp(objects[i].key) && objects[i].lastModified > cutoff
  }

  lemma {:induction false} StaleExactly(objects: seq<P.RemoteObject>, cutoff: int, key: string)
    ensures key in StaleKeys(objects, cutoff) <==>
      exists o :: o in objects && o.key == key && !IsTmp(key) && o.lastModified <= cutoff
  {
    if objects != [] {
      var front, last := objects[..|objects| - 1], objects[|objects| - 1];
      StaleExactly(front, cutoff, key);
      assert objects == front + [last];
      assert last in objects && forall o :: o in front ==> o in objects;
    }
  }

  lemma StalePicks(objects: seq<P.RemoteObject>, cutoff: int, touch: seq<string>)
    requires multiset(touch) == multiset(StaleKeys(objects, cutoff))
    ensures Picks(objects, cutoff, touch)
  {
    forall key ensures key in touch <==>
      exists o :: o in objects && o.key == key && !IsTmp(key) && o.lastModified <= cutoff
    {
      SameMembers(touch, StaleKeys(objects, cutoff), key);
      StaleExactly(objects, cutoff, key);
    }
  }

  lemma SameMembers(a: seq<string>, b: seq<string>, key: string)
    requires multiset(a) == multiset(b)
    ensures key in a <==> key in b
  {
    assert key in a <==> key in multiset(a);
    assert key in b <==> key in multiset(b);
  }

  lemma {:induction false} FreshCounted(objects: seq<P.RemoteObject>, cutoff: int)
    ensures FreshCount(objects, cutoff) == |FreshPlaces(objects, cutoff)|
  {
    if objects == [] {
      assert FreshPlaces(objects, cutoff) == {};
    } else {
      var n := |objects| - 1;
      var front, last := objects[..n], objects[n];
      FreshCounted(front, cutoff);
      assert n !in FreshPlaces(front, cutoff);
      assert FreshPlaces(objects, cutoff) ==
        FreshPlaces(front, cutoff) + if !IsTmp(last.key) && last.lastModified > cutoff then {n} else {};
    }
  }

  /** A touch run looks further back than the collector: whatever a collection of the same listing would evict is
      touched, and what it leaves out is an intermediate or too fresh to be evicted. */
  lemma EvictableIsTouched(objects: seq<P.RemoteObject>, cutoff: int, touch: seq<string>,
                           index: P.UsageMap, p: P.Params, plan: P.Plan, o: P.RemoteObject)
    requires Picks(objects, cutoff, touch) && P.IsPlan(objects, index, p, plan) && p.now - p.minAge <= cutoff
    requires o in objects
    ensures (exists c :: c in plan.evictions && o in c.objects) ==> o.key in touch
    ensures o.key !in touch ==> IsTmp(o.key) || o.lastModified > cutoff
  {
    if c :| c in plan.evictions && o in c.objects {
      G.EvictedObject(objects, index, p, plan, c, o);
      G.YoungObjectsAreKept(objects, index, p, plan, o);
    }
  }

  /** How an operation on the store goes wrong, if it does: before or after taking effect. */
  datatype Fault = Works | Fails(applied: bool)

  class TouchStore {
    var objects: Store
    var clock: nat

    constructor (objects: Store, clock: nat)
      ensures this.objects == objects && this.clock == clock
    {
      this.objects, this.clock := objects, clock;
    }

    method Copy(from: string, to: string, fault: Fault) returns (r: Result)
      modifies this`objects
      ensures r == ResultOf(old(objects), from, fault) && Possible(old(objects), from, r)
      ensures objects == if Takes(r) then old(objects)[to := Stored(old(objects)[from].content,
          clock)] else old(objects)
    {
      r := ResultOf(objects, from, fault);
      if Takes(r) {
        objects := objects[to := Stored(objects[from].content, clock)];
      }
    }

    method Delete(key: string, fault: Fault) returns (r: Result)
      modifies this`objects
      ensures r == ResultOf(old(objects), key, fault) && Possible(old(objects), key, r)
      ensures objects == if Takes(r) then old(objects) - {key} else old(objects)
    {
      r := ResultOf(objects, key, fault);
      if Takes(r) {
        objects := objects - {key};
      }
    }

    /** Undisturbed, a touch changes nothing but the object's time, whatever the store had as an intermediate; a
        failure leaves the object with its content, and an intermediate only if the delete did not take effect
        or the first copy failed after it did. */
    method TouchOne(key: string, out: Fault, back: Fault, del: Fault) returns (outcome: Outcome)
      requires !IsTmp(key)
      modifies this`objects
      ensures key !in old(objects) ==> objects == old(objects) && outcome == (if out.Fails? then TouchFailed else Gone)
      ensures key in old(objects) && out.Fails? ==>
                && outcome == TouchFailed
                && objects ==
                     (if out.applied then old(objects)[Tmp(key) := Renewed(old(objects)[key])] else old(objects))
      ensures key in old(objects) && out.Works? ==>
                && outcome == (if back.Fails? then TouchFailed else Touched(clock))
                && objects - {Tmp(key)} ==
                     (if back == Fails(false) then old(objects) else old(objects)[key := Renewed(old(objects)[key])])
                       - {Tmp(key)}
                && (Tmp(key) in objects <==> del == Fails(false))
                && (Tmp(key) in objects ==> objects[Tmp(key)] == Renewed(old(objects)[key]))
    {
      var tmp := Tmp(key);
      var first := Copy(key, tmp, out);
      if first.Missing? {
        return Gone;
      } else if first.Failed? {
        return TouchFailed;
      }
      var second := Copy(tmp, key, back);
      var _ := Delete(tmp, del);
      match second
      case Done => return Touched(clock);
      case Missing => return Gone;
      case Failed(_) => return TouchFailed;
    }

    function Renewed(o: Stored): Stored
      reads this
    {
      Stored(o.content, clock)
    }
  }

  function ResultOf(store: Store, from: string, fault: Fault): Result {
    match fault
    case Works => if from in store then Done else Missing
    case Fails(applied) => Failed(applied && from in store)
  }
}
