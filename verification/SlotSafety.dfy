/** Where every slot is, in every reachable state of the slot protocol. */
module SlotSafety {
  import opened Options
  import opened JobEvents
  import S = Scheduling
  import opened SlotProtocol

  /** The hands a slot can be in. */
  datatype Place = AtConn | InMail | InFrame(task: Task) | AtSupervisor

  type Slots = map<JobId, Place>

  ghost function QueuedIds(sched: S.State): set<JobId> {
    set e | e in sched.queue :: e.id
  }

  ghost function PlaceOf(slot: Slots, id: JobId): Option<Place> {
    if id in slot then Some(slot[id]) else None
  }

  /** One job against the shared structures. */
  predicate Fits(j: Job, queued: bool, waits: bool, place: Option<Place>) {
    && (waits <==> j.mail.Open?)
    && (place == Some(InMail) <==> j.mail.Sent?)
    && (place == Some(AtSupervisor) <==> j.supervisor.Supervising? || j.supervisor.Ended?)
    && (place == Some(AtConn) <==> j.phase.Starting? || j.phase.Returning?)
    && (queued ==> place.None?)
    && (j.supervisor.NoSupervisor? || j.phase.Forwarding? || j.phase.Over?)
    && match j.phase
       case Checking => !queued && place.None? && j.mail.NoMail?
       case Registering => j.mail.NoMail?
       case Announcing => j.mail.Open? || j.mail.Sent?
       case Waiting => j.mail.Open? || j.mail.Sent?
       case Removing(_) => j.mail.Open? || j.mail.Sent?
       case Unregistering(was, _) => !queued && (j.mail.Open? || j.mail.Sent?) && (was ==> place.None?)
       case Probing(was, _) => !queued && (j.mail.Dropped? || j.mail.Sent?) && (was ==> place.None?)
       case _ => !queued && !j.mail.Open? && !j.mail.Sent?
  }

  ghost predicate SchedulerFits(sched: S.State) {
    S.Sound(sched) && S.DistinctIds(sched.queue)
  }

  ghost predicate KeysFit(jobs: map<JobId, Job>, queued: set<JobId>, waiters: set<JobId>, nextId: JobId) {
    queued <= jobs.Keys && waiters <= jobs.Keys && forall id :: id in jobs ==> id < nextId
  }

  ghost predicate JobsFit(jobs: map<JobId, Job>, queued: set<JobId>, waiters: set<JobId>, slot: Slots) {
    forall id :: id in jobs ==> Fits(jobs[id], id in queued, id in waiters, PlaceOf(slot, id))
  }

  function FrameIds(f: Frame): seq<JobId> {
    f.released + f.orphaned
  }

  ghost predicate FramesFit(frames: map<Task, Frame>, slot: Slots) {
    && (forall t :: t in frames ==> S.Distinct(FrameIds(frames[t])))
    && (forall t, id :: t in frames && id in FrameIds(frames[t]) ==> id in slot && slot[id] == InFrame(t))
    && (forall id :: id in slot && slot[id].InFrame? ==>
          slot[id].task in frames && id in FrameIds(frames[slot[id].task]))
  }

  ghost predicate TasksFit(frames: map<Task, Frame>, jobs: map<JobId, Job>) {
    && (forall id :: ConnTask(id) in frames <==> id in jobs && jobs[id].phase.Waking?)
    && (forall id :: SupervisorTask(id) in frames ==> id in jobs && jobs[id].supervisor.Finished?)
  }

  /** Every slot was granted once and is given back at most once; the difference is in a hand. */
  ghost predicate Balanced(grants: multiset<JobId>, refunds: multiset<JobId>, slot: Slots) {
    && (forall id: JobId :: grants[id] <= 1)
    && (forall id: JobId :: refunds[id] + (if id in slot then 1 else 0) == grants[id])
  }

  /** A job not yet admitted or still queued has never had a slot. */
  ghost predicate Ungranted(jobs: map<JobId, Job>, queued: set<JobId>, grants: multiset<JobId>) {
    forall id: JobId :: id in grants ==> id in jobs && !jobs[id].phase.Checking? && id !in queued
  }

  ghost predicate Tracks(st: State, slot: Slots) {
    && SchedulerFits(st.sched)
    && KeysFit(st.jobs, QueuedIds(st.sched), st.waiters, st.nextId)
    && st.sched.running == |slot|
    && slot.Keys <= st.jobs.Keys
    && JobsFit(st.jobs, QueuedIds(st.sched), st.waiters, slot)
    && FramesFit(st.frames, slot)
    && TasksFit(st.frames, st.jobs)
    && Balanced(st.grants, st.refunds, slot)
    && Ungranted(st.jobs, QueuedIds(st.sched), st.grants)
  }

  // ------------------------------------------------------------------------------------------
  // The scheduler's part

  lemma DropSize(slot: Slots, id: JobId)
    requires id in slot
    ensures |slot - {id}| == |slot| - 1 && (slot - {id}).Keys <= slot.Keys
  {
    assert (slot - {id}).Keys == slot.Keys - {id};
  }

  lemma AddSize(slot: Slots, id: JobId, p: Place)
    ensures |slot[id := p]| == |slot| + (if id in slot then 0 else 1)
  {
    assert slot[id := p].Keys == slot.Keys + {id};
  }

  ghost function AddAll(slot: Slots, ids: seq<JobId>, p: Place): Slots {
    slot + map id | id in ids :: p
  }

  lemma {:induction false} DistinctSize(ids: seq<JobId>)
    requires S.Distinct(ids)
    ensures |S.IdSet(ids)| == |ids|
  {
    if ids != [] {
      var rest := ids[..|ids| - 1];
      DistinctSize(rest);
      assert ids == rest + [ids[|ids| - 1]];
      assert S.IdSet(ids) == S.IdSet(rest) + {ids[|ids| - 1]};
    }
  }

  lemma AddAllSize(slot: Slots, ids: seq<JobId>, p: Place)
    requires S.Distinct(ids) && forall id :: id in ids ==> id !in slot
    ensures |AddAll(slot, ids, p)| == |slot| + |ids|
  {
    DistinctSize(ids);
    assert AddAll(slot, ids, p).Keys == slot.Keys + S.IdSet(ids);
    assert slot.Keys !! S.IdSet(ids);
  }

  lemma PollSchedule(sched: S.State, mem: nat)
    requires SchedulerFits(sched)
    ensures var sched' := S.Poll(sched, mem); var ids := S.Ids(S.Released(sched, mem));
            && SchedulerFits(sched') && S.Distinct(ids)
            && sched'.running == sched.running + |ids|
            && (forall id :: id in ids ==> id in QueuedIds(sched))
            && (forall id :: id in QueuedIds(sched') <==> id in QueuedIds(sched) && id !in ids)
  {
    var k := S.Releasable(sched, mem);
    S.PollSound(sched, mem);
    S.RestDistinct(sched.queue, k, QueuedIds(sched));
    PoppedIds(sched.queue, k);
  }

  ghost function IdsIn(queue: seq<S.Entry>): set<JobId> {
    set e | e in queue :: e.id
  }

  /** The popped prefix of a queue has ids of its own. */
  lemma PoppedIds(queue: seq<S.Entry>, k: nat)
    requires S.DistinctIds(queue) && k <= |queue|
    ensures var ids := S.Ids(queue[..k]);
      && S.Distinct(ids)
      && (forall id :: id in ids ==> id in IdsIn(queue))
      && (forall id :: id in IdsIn(queue[k..]) <==> id in IdsIn(queue) && id !in ids)
  {
    var ids := S.Ids(queue[..k]);
    forall id | id in ids ensures id in IdsIn(queue) && id !in IdsIn(queue[k..]) {
      var i :| 0 <= i < |ids| && ids[i] == id;
      assert queue[i] in queue;
      IdNotAfter(queue, i, k);
    }
    forall id | id in IdsIn(queue) ensures id in ids || id in IdsIn(queue[k..]) {
      var i :| 0 <= i < |queue| && queue[i].id == id;
      if i < k {
        assert ids[i] == id;
      } else {
        assert queue[k..][i - k] == queue[i];
      }
    }
    assert forall e :: e in queue[k..] ==> e in queue;
  }

  lemma IdNotAfter(queue: seq<S.Entry>, i: nat, k: nat)
    requires S.DistinctIds(queue) && i < k <= |queue|
    ensures queue[i].id !in IdsIn(queue[k..])
  {
    forall e | e in queue[k..] ensures e.id != queue[i].id {
      var j :| 0 <= j < |queue[k..]| && queue[k..][j] == e;
      assert queue[k + j] == e;
    }
  }

  lemma FreeSlotSchedule(sched: S.State)
    requires SchedulerFits(sched)
    ensures SchedulerFits(S.FreeSlot(sched)) && QueuedIds(S.FreeSlot(sched)) == QueuedIds(sched)
    ensures sched.running >= 1 ==> S.FreeSlot(sched).running == sched.running - 1
  {
  }

  lemma AdmitSchedule(sched: S.State, id: JobId, p: S.Priority, mem: nat)
    requires SchedulerFits(sched) && id !in QueuedIds(sched)
    ensures var (sched', d) := S.Admit(sched, id, p, mem);
            && SchedulerFits(sched')
            && sched'.running == sched.running + (if d.Accept? then 1 else 0)
            && QueuedIds(sched') == QueuedIds(sched) + (if d.Queue? then {id} else {})
  {
    var (sched', d) := S.Admit(sched, id, p, mem);
    S.AdmitSound(sched, id, p, mem);
    S.AdmitKeepsIdsDistinct(sched, id, p, mem, QueuedIds(sched));
    if d.Queue? {
      InsertedIds(sched, sched', d.position - 1, S.Entry(id, p, sched.seqNo + 1));
    }
  }

  lemma InsertedIds(sched: S.State, sched': S.State, i: nat, e: S.Entry)
    requires i <= |sched.queue| && sched'.queue == sched.queue[..i] + [e] + sched.queue[i..]
    ensures QueuedIds(sched') == QueuedIds(sched) + {e.id}
  {
    assert sched.queue == sched.queue[..i] + sched.queue[i..];
    forall x ensures x in sched'.queue <==> x in sched.queue || x == e {}
    assert e in sched'.queue;
  }

  lemma RemovedIds(queue: seq<S.Entry>, i: nat, x: JobId)
    requires i < |queue| && S.DistinctIds(queue)
    ensures var rest := queue[..i] + queue[i + 1..];
            (exists e :: e in rest && e.id == x) <==> x != queue[i].id && (exists e :: e in queue && e.id == x)
  {
    var rest := queue[..i] + queue[i + 1..];
    forall e | e in rest ensures e in queue && e.id != queue[i].id {
      var k :| 0 <= k < |rest| && rest[k] == e;
      assert e == queue[if k < i then k else k + 1];
    }
    forall e | e in queue && e.id != queue[i].id ensures e in rest {
      var k :| 0 <= k < |queue| && queue[k] == e;
      assert e == rest[if k < i then k else k - 1];
    }
  }

  lemma RemoveSchedule(sched: S.State, id: JobId)
    requires SchedulerFits(sched)
    ensures var (sched', found) := S.RemoveQueued(sched, id);
            && SchedulerFits(sched') && sched'.running == sched.running
            && (found <==> id in QueuedIds(sched))
            && QueuedIds(sched') == QueuedIds(sched) - {id}
  {
    var sched' := S.RemoveQueued(sched, id).0;
    var i := S.Find(sched.queue, id);
    S.RemoveSound(sched, id);
    if i < |sched.queue| {
      assert sched.queue[i] in sched.queue;
      forall x ensures x in QueuedIds(sched') <==> x in QueuedIds(sched) - {id} {
        RemovedIds(sched.queue, i, x);
      }
    }
  }

  // ------------------------------------------------------------------------------------------
  // Steps

  lemma OneJobFits(jobs: map<JobId, Job>, queued: set<JobId>, waiters: set<JobId>, slot: Slots, id: JobId,
                   j: Job, queued': set<JobId>, waiters': set<JobId>, slot': Slots)
    requires JobsFit(jobs, queued, waiters, slot)
    requires queued' - {id} == queued - {id} && waiters' - {id} == waiters - {id} && slot' - {id} == slot - {id}
    requires Fits(j, id in queued', id in waiters', PlaceOf(slot', id))
    ensures JobsFit(jobs[id := j], queued', waiters', slot')
  {
    forall i | i in jobs[id := j] && i != id
      ensures (i in queued' <==> i in queued) && (i in waiters' <==> i in waiters) &&
          PlaceOf(slot', i) == PlaceOf(slot, i)
    {
      assert i in queued' - {id} <==> i in queued - {id};
      assert i in waiters' - {id} <==> i in waiters - {id};
      assert i in slot' - {id} <==> i in slot - {id};
      if i in slot {
        assert (slot' - {id})[i] == (slot - {id})[i];
      }
    }
  }

  /** A slot moves between hands other than a wake loop's. */
  ghost predicate Moved(slot: Slots, slot': Slots, id: JobId) {
    slot' == slot ||
    (id in slot && id in slot' && slot' == slot[id := slot'[id]] && !slot[id].InFrame? && !slot'[id].InFrame?)
  }

  lemma MoveKeepsFrames(frames: map<Task, Frame>, slot: Slots, slot': Slots, id: JobId)
    requires FramesFit(frames, slot) && Moved(slot, slot', id)
    ensures FramesFit(frames, slot')
  {
  }

  lemma MoveKeepsKeys(slot: Slots, slot': Slots, id: JobId)
    requires Moved(slot, slot', id)
    ensures slot'.Keys == slot.Keys && |slot'| == |slot| && slot' - {id} == slot - {id}
  {
    if slot' != slot {
      AddSize(slot, id, slot'[id]);
    }
  }

  lemma SameKeysBalanced(grants: multiset<JobId>, refunds: multiset<JobId>, slot: Slots, slot': Slots)
    requires Balanced(grants, refunds, slot) && slot'.Keys == slot.Keys
    ensures Balanced(grants, refunds, slot')
  {
    assert forall id: JobId :: id in slot' <==> id in slot'.Keys;
  }

  lemma OneJobKeepsTasks(frames: map<Task, Frame>, jobs: map<JobId, Job>, id: JobId, j: Job)
    requires TasksFit(frames, jobs) && id in jobs
    requires j.phase.Waking? <==> jobs[id].phase.Waking?
    requires jobs[id].supervisor.Finished? ==> j.supervisor.Finished?
    ensures TasksFit(frames, jobs[id := j])
  {
  }

  lemma OneJobKeepsUngranted(jobs: map<JobId, Job>, queued: set<JobId>, grants: multiset<JobId>, id: JobId, j: Job)
    requires Ungranted(jobs, queued, grants) && id in jobs
    requires j.phase.Checking? ==> jobs[id].phase.Checking?
    ensures Ungranted(jobs[id := j], queued, grants)
  {
  }

  /** A step that changes one job. */
  lemma JobStep(st: State, slot: Slots, st': State, slot': Slots, id: JobId)
    requires Tracks(st, slot) && id in st.jobs && id in st'.jobs
    requires st' == st.(jobs := st.jobs[id := st'.jobs[id]], waiters := st'.waiters, open := st'.open)
    requires st'.waiters == st.waiters || st'.waiters == st.waiters + {id} || st'.waiters == st.waiters - {id}
    requires Moved(slot, slot', id)
    requires Fits(st'.jobs[id], id in QueuedIds(st.sched), id in st'.waiters, PlaceOf(slot', id))
    requires st'.jobs[id].phase.Waking? <==> st.jobs[id].phase.Waking?
    requires st'.jobs[id].phase.Checking? ==> st.jobs[id].phase.Checking?
    requires st.jobs[id].supervisor.Finished? ==> st'.jobs[id].supervisor.Finished?
    ensures Tracks(st', slot')
  {
    var j := st'.jobs[id];
    var queued := QueuedIds(st.sched);
    MoveKeepsKeys(slot, slot', id);
    MovedFits(st.jobs, queued, st.waiters, slot, id, j, st'.waiters, slot');
    MoveKeepsFrames(st.frames, slot, slot', id);
    OneJobKeepsTasks(st.frames, st.jobs, id, j);
    SameKeysBalanced(st.grants, st.refunds, slot, slot');
    OneJobKeepsUngranted(st.jobs, queued, st.grants, id, j);
    OneJobKeepsKeys(st.jobs, queued, st.waiters, st.nextId, id, j, st'.waiters);
  }

  lemma MovedFits(jobs: map<JobId, Job>, queued: set<JobId>, waiters: set<JobId>, slot: Slots, id: JobId, j: Job,
                  waiters': set<JobId>, slot': Slots)
    requires JobsFit(jobs, queued, waiters, slot) && Moved(slot, slot', id)
    requires waiters' == waiters || waiters' == waiters + {id} || waiters' == waiters - {id}
    requires Fits(j, id in queued, id in waiters', PlaceOf(slot', id))
    ensures JobsFit(jobs[id := j], queued, waiters', slot')
  {
    MoveKeepsKeys(slot, slot', id);
    assert waiters' - {id} == waiters - {id};
    OneJobFits(jobs, queued, waiters, slot, id, j, queued, waiters', slot');
  }

  lemma OneJobKeepsKeys(jobs: map<JobId, Job>, queued: set<JobId>, waiters: set<JobId>, nextId: JobId, id: JobId,
                        j: Job,
                        waiters': set<JobId>)
    requires KeysFit(jobs, queued, waiters, nextId) && id in jobs && waiters' <= waiters + {id}
    ensures KeysFit(jobs[id := j], queued, waiters', nextId) && jobs[id := j].Keys == jobs.Keys
  {
    assert jobs[id := j].Keys == jobs.Keys;
  }

  /** `poll` moves the released jobs from the queue into the hands of the polling task. */
  lemma PollIntoTracks(st: State, slot: Slots, t: Task, mem: nat) returns (slot': Slots)
    requires Tracks(st, slot) && t in st.frames
    ensures Tracks(PollInto(st, t, mem), slot')
  {
    var ids := S.Ids(S.Released(st.sched, mem));
    PollSchedule(st.sched, mem);
    QueuedHaveNoSlot(st.jobs, QueuedIds(st.sched), st.waiters, slot, ids);
    slot' := AddAll(slot, ids, InFrame(t));
    AddAllSize(slot, ids, InFrame(t));
    PolledTracks(st, slot, t, S.Poll(st.sched, mem), ids);
  }

  lemma PolledTracks(st: State, slot: Slots, t: Task, sched: S.State, ids: seq<JobId>)
    requires Tracks(st, slot) && t in st.frames && S.Distinct(ids)
    requires SchedulerFits(sched) && sched.running == |AddAll(slot, ids, InFrame(t))|
    requires forall id :: id in ids ==> id in QueuedIds(st.sched)
    requires forall id :: id in ids ==> id in st.jobs && id !in slot && !st.jobs[id].phase.Checking?
    requires forall id :: id in QueuedIds(sched) <==> id in QueuedIds(st.sched) && id !in ids
    ensures Tracks(st.(sched := sched, frames := st.frames[t := st.frames[t].(released := st.frames[t].released + ids)],
                       grants := st.grants + multiset(ids)), AddAll(slot, ids, InFrame(t)))
  {
    var queued, queued' := QueuedIds(st.sched), QueuedIds(sched);
    PollKeepsKeys(st.jobs, queued, queued', st.waiters, st.nextId, slot, ids, InFrame(t));
    PollKeepsJobs(st.jobs, queued, queued', st.waiters, slot, ids, t);
    PollKeepsFrames(st.frames, slot, t, ids);
    PollKeepsTasks(st.frames, st.jobs, t, st.frames[t].(released := st.frames[t].released + ids));
    PollKeepsBalance(st.grants, st.refunds, slot, ids, InFrame(t));
    PollKeepsUngranted(st.jobs, queued, queued', st.grants, ids);
  }

  lemma PollKeepsKeys(jobs: map<JobId, Job>, queued: set<JobId>, queued': set<JobId>, waiters: set<JobId>,
                      nextId: JobId,
                      slot: Slots, ids: seq<JobId>, p: Place)
    requires KeysFit(jobs, queued, waiters, nextId) && slot.Keys <= jobs.Keys
    requires (forall id :: id in ids ==> id in jobs) && forall id :: id in queued' ==> id in queued
    ensures KeysFit(jobs, queued', waiters, nextId) && AddAll(slot, ids, p).Keys <= jobs.Keys
  {
  }

  lemma QueuedHaveNoSlot(jobs: map<JobId, Job>, queued: set<JobId>, waiters: set<JobId>, slot: Slots, ids: seq<JobId>)
    requires JobsFit(jobs, queued, waiters, slot) && queued <= jobs.Keys
    requires forall id :: id in ids ==> id in queued
    ensures forall id :: id in ids ==> id in jobs && id !in slot && !jobs[id].phase.Checking?
  {
  }

  lemma PollKeepsTasks(frames: map<Task, Frame>, jobs: map<JobId, Job>, t: Task, f: Frame)
    requires TasksFit(frames, jobs) && t in frames
    ensures TasksFit(frames[t := f], jobs)
  {
  }

  lemma PollKeepsJobs(jobs: map<JobId, Job>, queued: set<JobId>, queued': set<JobId>, waiters: set<JobId>, slot: Slots,
                      ids: seq<JobId>, t: Task)
    requires JobsFit(jobs, queued, waiters, slot)
    requires forall id :: id in ids ==> id in queued && id !in slot
    requires forall id :: id in queued' <==> id in queued && id !in ids
    ensures JobsFit(jobs, queued', waiters, AddAll(slot, ids, InFrame(t)))
  {
    var slot' := AddAll(slot, ids, InFrame(t));
    forall id | id in jobs
      ensures Fits(jobs[id], id in queued', id in waiters, PlaceOf(slot', id))
    {
      if id in ids {
        assert PlaceOf(slot', id) == Some(InFrame(t));
      } else {
        assert PlaceOf(slot', id) == PlaceOf(slot, id);
      }
    }
  }

  lemma PollKeepsFrames(frames: map<Task, Frame>, slot: Slots, t: Task, ids: seq<JobId>)
    requires FramesFit(frames, slot) && t in frames && S.Distinct(ids)
    requires forall id :: id in ids ==> id !in slot
    ensures FramesFit(frames[t := frames[t].(released := frames[t].released + ids)], AddAll(slot, ids, InFrame(t)))
  {
    var f := frames[t];
    var f' := f.(released := f.released + ids);
    MembersGrow(f, ids);
    DistinctInsert(f.released, ids, f.orphaned);
    GrownFrameFits(frames, slot, t, f', ids);
  }

  lemma MembersGrow(f: Frame, ids: seq<JobId>)
    ensures var f' := f.(released := f.released + ids); forall id :: id in FrameIds(f') <==>
      id in FrameIds(f) || id in ids
  {
  }

  lemma GrownFrameFits(frames: map<Task, Frame>, slot: Slots, t: Task, f': Frame, ids: seq<JobId>)
    requires FramesFit(frames, slot) && t in frames && S.Distinct(FrameIds(f'))
    requires forall id :: id in ids ==> id !in slot
    requires forall id :: id in FrameIds(f') <==> id in FrameIds(frames[t]) || id in ids
    ensures FramesFit(frames[t := f'], AddAll(slot, ids, InFrame(t)))
  {
  }

  lemma DistinctInsert(a: seq<JobId>, b: seq<JobId>, c: seq<JobId>)
    requires S.Distinct(a + c) && S.Distinct(b)
    requires forall id :: id in b ==> id !in a + c
    ensures S.Distinct(a + b + c)
  {
    var s := a + b + c;
    forall i, j | 0 <= i < j < |s| ensures s[i] != s[j] {
      assert forall k :: 0 <= k < |s| && !(|a| <= k < |a| + |b|) ==>
          s[k] == (a + c)[if k < |a| then k else k - |b|];
      assert forall k :: |a| <= k < |a| + |b| ==> s[k] == b[k - |a|] && s[k] in b;
    }
  }

  lemma {:induction false} DistinctCounts(ids: seq<JobId>, id: JobId)
    requires S.Distinct(ids)
    ensures multiset(ids)[id] == if id in ids then 1 else 0
  {
    if ids != [] {
      var rest := ids[..|ids| - 1];
      DistinctCounts(rest, id);
      assert ids == rest + [ids[|ids| - 1]];
    }
  }

  lemma PollKeepsBalance(grants: multiset<JobId>, refunds: multiset<JobId>, slot: Slots, ids: seq<JobId>, p: Place)
    requires Balanced(grants, refunds, slot) && S.Distinct(ids)
    requires forall id :: id in ids ==> id !in slot && id !in grants
    ensures Balanced(grants + multiset(ids), refunds, AddAll(slot, ids, p))
  {
    forall id: JobId
      ensures (grants + multiset(ids))[id] == grants[id] + (if id in ids then 1 else 0)
    {
      DistinctCounts(ids, id);
    }
  }

  lemma PollKeepsUngranted(jobs: map<JobId, Job>, queued: set<JobId>, queued': set<JobId>, grants: multiset<JobId>,
                           ids: seq<JobId>)
    requires Ungranted(jobs, queued, grants)
    requires forall id :: id in queued' <==> id in queued && id !in ids
    requires forall id :: id in ids ==> id in jobs && !jobs[id].phase.Checking?
    ensures Ungranted(jobs, queued', grants + multiset(ids))
  {
    assert forall id :: id in multiset(ids) <==> id in ids;
  }

  lemma RefundKeepsBalance(grants: multiset<JobId>, refunds: multiset<JobId>, slot: Slots, id: JobId)
    requires Balanced(grants, refunds, slot) && id in slot
    ensures Balanced(grants, refunds + multiset{id}, slot - {id})
  {
  }

  lemma DroppedFits(jobs: map<JobId, Job>, queued: set<JobId>, waiters: set<JobId>, slot: Slots, id: JobId, j: Job)
    requires JobsFit(jobs, queued, waiters, slot) && Fits(j, id in queued, id in waiters, None)
    ensures JobsFit(jobs[id := j], queued, waiters, slot - {id})
  {
    assert slot - {id} - {id} == slot - {id};
    OneJobFits(jobs, queued, waiters, slot, id, j, queued, waiters, slot - {id});
  }

  lemma FreeOneSlot(sched: S.State, slot: Slots, id: JobId)
    requires SchedulerFits(sched) && sched.running == |slot| && id in slot
    ensures var sched' := S.FreeSlot(sched);
      SchedulerFits(sched') && QueuedIds(sched') == QueuedIds(sched) && sched'.running == |slot - {id}|
    ensures sched.running >= 1 && (slot - {id}).Keys <= slot.Keys
  {
    DropSize(slot, id);
    FreeSlotSchedule(sched);
  }

  /** The three ways a slot is given up; what remains is the poll inside `finish`. */
  lemma GiveUpTracks(st: State, slot: Slots, st': State, id: JobId)
    requires Tracks(st, slot) && id in slot && id in st'.jobs
    requires st' == st.(sched := S.FreeSlot(st.sched), refunds := st.refunds + multiset{id},
                        jobs := st.jobs[id := st'.jobs[id]], frames := st'.frames)
    requires Fits(st'.jobs[id], id in QueuedIds(st.sched), id in st.waiters, None)
    requires st'.jobs[id].phase.Checking? ==> st.jobs[id].phase.Checking?
    requires FramesFit(st'.frames, slot - {id}) && TasksFit(st'.frames, st'.jobs)
    ensures Tracks(st', slot - {id})
    ensures st.sched.running >= 1
  {
    var queued, j := QueuedIds(st.sched), st'.jobs[id];
    assert id in slot.Keys && id in st.jobs.Keys;
    FreeOneSlot(st.sched, slot, id);
    DroppedFits(st.jobs, queued, st.waiters, slot, id, j);
    RefundKeepsBalance(st.grants, st.refunds, slot, id);
    OneJobKeepsUngranted(st.jobs, queued, st.grants, id, j);
    OneJobKeepsKeys(st.jobs, queued, st.waiters, st.nextId, id, j, st.waiters);
  }

  // ------------------------------------------------------------------------------------------
  // Actions

  function NewPlace(j: Job, a: LocalAction, place: Option<Place>): Option<Place>
    requires LocalEnabled(j, a)
  {
    match LocalNext(j, a).phase
    case Starting => Some(AtConn)
    case Returning(_) => Some(AtConn)
    case _ => if a.Launch? then Some(AtSupervisor) else place
  }

  lemma LocalFits(j: Job, queued: bool, waits: bool, place: Option<Place>, a: LocalAction)
    requires Fits(j, queued, waits, place) && LocalEnabled(j, a)
    ensures Fits(LocalNext(j, a), queued, waits, NewPlace(j, a, place))
    ensures NewPlace(j, a, place) == place || (place.Some? && !place.value.InFrame? &&
        NewPlace(j, a, place).Some? && !NewPlace(j, a, place).value.InFrame?)
    ensures !a.ReceiveDropped?
    ensures LocalNext(j, a).phase.Waking? <==> j.phase.Waking?
    ensures !LocalNext(j, a).phase.Checking? || j.phase.Checking?
    ensures j.supervisor.Finished? ==> LocalNext(j, a).supervisor.Finished?
  {
  }

  ghost function Placed(slot: Slots, id: JobId, place: Option<Place>): Slots
    requires place.Some? || id !in slot
  {
    if place.Some? then slot[id := place.value] else slot
  }

  lemma PlacedMoves(slot: Slots, id: JobId, place: Option<Place>)
    requires place == PlaceOf(slot, id) ||
             (place.Some? && id in slot && !slot[id].InFrame? && !place.value.InFrame?)
    ensures Moved(slot, Placed(slot, id, place), id) && PlaceOf(Placed(slot, id, place), id) == place
  {
  }

  lemma LocalTracks(st: State, slot: Slots, id: JobId, a: LocalAction) returns (slot': Slots)
    requires Tracks(st, slot) && Enabled(st, Local(id, a))
    ensures Tracks(Next(st, Local(id, a)), slot')
  {
    var j := st.jobs[id];
    var queued, waits, place := id in QueuedIds(st.sched), id in st.waiters, PlaceOf(slot, id);
    LocalFits(j, queued, waits, place, a);
    var open := Close(st, j.conn, Closes(j, a)).open;
    slot' := OneJobTracks(st, slot, id, LocalNext(j, a), NewPlace(j, a, place), open);
    LocalNextIs(st, id, a);
  }

  lemma LocalNextIs(st: State, id: JobId, a: LocalAction)
    requires Enabled(st, Local(id, a))
    ensures var j := st.jobs[id];
      Next(st, Local(id, a)) == st.(jobs := st.jobs[id := LocalNext(j, a)], open := Close(st, j.conn, Closes(j,
          a)).open)
  {
  }

  lemma OneJobTracks(st: State, slot: Slots, id: JobId, j: Job, place: Option<Place>,
                     open: set<ConnId>) returns (slot': Slots)
    requires Tracks(st, slot) && id in st.jobs
    requires Fits(j, id in QueuedIds(st.sched), id in st.waiters, place)
    requires place == PlaceOf(slot, id) ||
             (place.Some? && id in slot && !slot[id].InFrame? && !place.value.InFrame?)
    requires j.phase.Waking? <==> st.jobs[id].phase.Waking?
    requires !j.phase.Checking? || st.jobs[id].phase.Checking?
    requires st.jobs[id].supervisor.Finished? ==> j.supervisor.Finished?
    ensures Tracks(st.(jobs := st.jobs[id := j], open := open), slot')
  {
    slot' := Placed(slot, id, place);
    PlacedMoves(slot, id, place);
    JobStep(st, slot, st.(jobs := st.jobs[id := j], open := open), slot', id);
  }

  lemma RegisterTracks(st: State, slot: Slots, id: JobId)
    requires Tracks(st, slot) && Enabled(st, Register(id))
    ensures Tracks(Next(st, Register(id)), slot)
  {
    assert Fits(st.jobs[id], id in QueuedIds(st.sched), id in st.waiters, PlaceOf(slot, id));
    JobStep(st, slot, Next(st, Register(id)), slot, id);
  }

  lemma UnregisterTracks(st: State, slot: Slots, id: JobId)
    requires Tracks(st, slot) && Enabled(st, Unregister(id))
    ensures Tracks(Next(st, Unregister(id)), slot)
  {
    assert Fits(st.jobs[id], id in QueuedIds(st.sched), id in st.waiters, PlaceOf(slot, id));
    JobStep(st, slot, Next(st, Unregister(id)), slot, id);
  }

  lemma SubmitTracks(st: State, slot: Slots, c: ConnId, p: S.Priority)
    requires Tracks(st, slot) && Enabled(st, Submit(c, p))
    ensures Tracks(Next(st, Submit(c, p)), slot)
  {
    var id := st.nextId;
    assert id !in st.jobs.Keys;
    assert id !in slot.Keys && id !in QueuedIds(st.sched) && id !in st.waiters;
    NewJobTracks(st, slot, id, Job(c, p, Checking, NoMail, NoSupervisor, false, [], []));
  }

  lemma NewJobTracks(st: State, slot: Slots, id: JobId, j: Job)
    requires Tracks(st, slot) && id == st.nextId && id !in st.jobs && id !in slot && id !in QueuedIds(st.sched) &&
        id !in st.waiters
    requires j.phase.Checking? && j.mail.NoMail? && j.supervisor.NoSupervisor?
    ensures Tracks(SetJob(st.(nextId := id + 1), id, j), slot)
  {
    var queued := QueuedIds(st.sched);
    OneJobFits(st.jobs, queued, st.waiters, slot, id, j, queued, st.waiters, slot);
    NewJobKeepsTasks(st.frames, st.jobs, id, j);
    NewJobKeepsUngranted(st.jobs, queued, st.grants, id, j);
  }

  lemma NewJobKeepsTasks(frames: map<Task, Frame>, jobs: map<JobId, Job>, id: JobId, j: Job)
    requires TasksFit(frames, jobs) && id !in jobs && !j.phase.Waking?
    ensures TasksFit(frames, jobs[id := j])
  {
  }

  lemma NewJobKeepsUngranted(jobs: map<JobId, Job>, queued: set<JobId>, grants: multiset<JobId>, id: JobId, j: Job)
    requires Ungranted(jobs, queued, grants) && id !in jobs
    ensures Ungranted(jobs[id := j], queued, grants)
  {
  }

  /** A slot is granted to `id`, or none is. */
  ghost predicate Granted(slot: Slots, grants: multiset<JobId>, slot': Slots, grants': multiset<JobId>, id: JobId) {
    || (slot' == slot && grants' == grants)
    || (id !in slot && id !in grants && slot' == slot[id := AtConn] && grants' == grants + multiset{id})
  }

  /** The scheduler's queue gains or loses `id`, and with it nothing but `id`'s phase changes. */
  lemma RequeueTracks(st: State, slot: Slots, sched: S.State, id: JobId, p: Phase, slot': Slots,
                      grants: multiset<JobId>)
    requires Tracks(st, slot) && id in st.jobs && Granted(slot, st.grants, slot', grants, id)
    requires SchedulerFits(sched) && sched.running == |slot'|
    requires QueuedIds(sched) - {id} == QueuedIds(st.sched) - {id}
    requires Fits(st.jobs[id].(phase := p), id in QueuedIds(sched), id in st.waiters, PlaceOf(slot', id))
    requires !p.Waking? && !st.jobs[id].phase.Waking? && !p.Checking?
    requires id in QueuedIds(sched) ==> id !in grants
    ensures Tracks(st.(jobs := st.jobs[id := st.jobs[id].(phase := p)], sched := sched, grants := grants), slot')
  {
    var j := st.jobs[id].(phase := p);
    var queued, queued' := QueuedIds(st.sched), QueuedIds(sched);
    GrantElsewhere(slot, st.grants, slot', grants, id);
    OneJobFits(st.jobs, queued, st.waiters, slot, id, j, queued', st.waiters, slot');
    OneJobKeepsTasks(st.frames, st.jobs, id, j);
    GrantKeepsFrames(st.frames, slot, st.grants, grants, slot', id);
    GrantKeepsBalance(st.grants, st.refunds, slot, grants, slot', id);
    GrantKeepsUngranted(st.jobs, queued, st.grants, id, j, queued', grants);
    RequeueKeepsKeys(st.jobs, queued, st.waiters, st.nextId, id, j, queued');
  }

  lemma RequeueKeepsKeys(jobs: map<JobId, Job>, queued: set<JobId>, waiters: set<JobId>, nextId: JobId, id: JobId,
                         j: Job, queued': set<JobId>)
    requires KeysFit(jobs, queued, waiters, nextId) && id in jobs && queued' - {id} == queued - {id}
    ensures KeysFit(jobs[id := j], queued', waiters, nextId)
  {
    forall i | i in queued' && i != id ensures i in queued {
      assert i in queued' - {id};
    }
  }

  lemma GrantElsewhere(slot: Slots, grants: multiset<JobId>, slot': Slots, grants': multiset<JobId>, id: JobId)
    requires Granted(slot, grants, slot', grants', id)
    ensures slot' - {id} == slot - {id} && slot'.Keys <= slot.Keys + {id}
  {
  }

  lemma GrantKeepsFrames(frames: map<Task, Frame>, slot: Slots, grants: multiset<JobId>, grants': multiset<JobId>,
                         slot': Slots, id: JobId)
    requires FramesFit(frames, slot) && Granted(slot, grants, slot', grants', id)
    ensures FramesFit(frames, slot')
  {
  }

  lemma GrantKeepsBalance(grants: multiset<JobId>, refunds: multiset<JobId>, slot: Slots, grants': multiset<JobId>,
                          slot': Slots, id: JobId)
    requires Balanced(grants, refunds, slot) && Granted(slot, grants, slot', grants', id)
    ensures Balanced(grants', refunds, slot')
  {
  }

  lemma GrantKeepsUngranted(jobs: map<JobId, Job>, queued: set<JobId>, grants: multiset<JobId>, id: JobId, j: Job,
                            queued': set<JobId>, grants': multiset<JobId>)
    requires Ungranted(jobs, queued, grants)
    requires queued' - {id} == queued - {id} && !j.phase.Checking? && (id in queued' ==> id !in grants')
    requires grants' == grants || grants' == grants + multiset{id}
    ensures Ungranted(jobs[id := j], queued', grants')
  {
    forall i | i in grants' && i != id ensures i !in queued' {
      assert i in grants && (i in queued' ==> i in queued - {id});
    }
  }

  lemma CheckingFits(st: State, slot: Slots, id: JobId)
    requires Tracks(st, slot) && id in st.jobs && st.jobs[id].phase.Checking?
    ensures Fits(st.jobs[id], false, false, None) && id !in slot && id !in QueuedIds(st.sched) && id !in st.waiters
    ensures id !in st.grants
  {
    assert Fits(st.jobs[id], id in QueuedIds(st.sched), id in st.waiters, PlaceOf(slot, id));
  }

  lemma DecidedFits(j: Job)
    requires Fits(j, false, false, None) && j.phase.Checking?
    ensures Fits(j.(phase := Starting), false, false, Some(AtConn))
    ensures Fits(j.(phase := Registering), true, false, None)
    ensures Fits(j.(phase := Replying(Rejected)), false, false, None)
  {
  }

  lemma AcceptTracks(st: State, slot: Slots, id: JobId, sched: S.State)
    requires Tracks(st, slot) && id in st.jobs && st.jobs[id].phase.Checking?
    requires SchedulerFits(sched) && sched.running == st.sched.running + 1 && QueuedIds(sched) == QueuedIds(st.sched)
    ensures Tracks(Decided(st, id, sched, S.Accept), slot[id := AtConn])
  {
    CheckingFits(st, slot, id);
    DecidedFits(st.jobs[id]);
    AddSize(slot, id, AtConn);
    RequeueTracks(st, slot, sched, id, Starting, slot[id := AtConn], st.grants + multiset{id});
  }

  lemma ParkTracks(st: State, slot: Slots, id: JobId, sched: S.State, position: nat)
    requires Tracks(st, slot) && id in st.jobs && st.jobs[id].phase.Checking?
    requires SchedulerFits(sched) && sched.running == st.sched.running && QueuedIds(sched) == QueuedIds(st.sched) + {id}
    ensures Tracks(Decided(st, id, sched, S.Queue(position)), slot)
  {
    CheckingFits(st, slot, id);
    DecidedFits(st.jobs[id]);
    assert QueuedIds(sched) - {id} == QueuedIds(st.sched) - {id};
    RequeueTracks(st, slot, sched, id, Registering, slot, st.grants);
  }

  lemma RefuseTracks(st: State, slot: Slots, id: JobId)
    requires Tracks(st, slot) && id in st.jobs && st.jobs[id].phase.Checking?
    ensures Tracks(Decided(st, id, st.sched, S.Saturated), slot)
  {
    CheckingFits(st, slot, id);
    DecidedFits(st.jobs[id]);
    RequeueTracks(st, slot, st.sched, id, Replying(Rejected), slot, st.grants);
  }

  lemma AdmitTracks(st: State, slot: Slots, id: JobId, mem: nat) returns (slot': Slots)
    requires Tracks(st, slot) && Enabled(st, Admit(id, mem))
    ensures Tracks(AdmitNext(st, id, mem), slot')
  {
    CheckingFits(st, slot, id);
    AdmitSchedule(st.sched, id, st.jobs[id].priority, mem);
    var (sched, d) := S.Admit(st.sched, id, st.jobs[id].priority, mem);
    match d
    case Accept => AcceptTracks(st, slot, id, sched); slot' := slot[id := AtConn];
    case Queue(position) => ParkTracks(st, slot, id, sched, position); slot' := slot;
    case Saturated => RefuseTracks(st, slot, id); slot' := slot;
  }

  lemma RemoveTracks(st: State, slot: Slots, id: JobId)
    requires Tracks(st, slot) && Enabled(st, Remove(id))
    ensures Tracks(Next(st, Remove(id)), slot)
  {
    assert Fits(st.jobs[id], id in QueuedIds(st.sched), id in st.waiters, PlaceOf(slot, id));
    RemoveSchedule(st.sched, id);
    var st' := Next(st, Remove(id));
    RequeueTracks(st, slot, st'.sched, id, st'.jobs[id].phase, slot, st.grants);
  }

  lemma EmptyFrameTracks(st: State, slot: Slots, t: Task, mem: nat)
    requires FramesFit(st.frames, slot) && t !in st.frames
    ensures FramesFit(Enter(st, t, mem).frames, slot)
  {
  }

  lemma TickTracks(st: State, slot: Slots, mem: nat) returns (slot': Slots)
    requires Tracks(st, slot) && Enabled(st, Tick(mem))
    ensures Tracks(Next(st, Tick(mem)), slot')
  {
    EmptyFrameTracks(st, slot, PollTask, mem);
    slot' := PollIntoTracks(Enter(st, PollTask, mem), slot, PollTask, mem);
  }

  lemma EnterKeepsFrames(frames: map<Task, Frame>, slot: Slots, t: Task, mem: nat, id: JobId)
    requires FramesFit(frames, slot) && t !in frames && id in slot && !slot[id].InFrame?
    ensures FramesFit(frames[t := Frame([], [], mem)], slot - {id})
  {
  }

  /** The slot of `id` given up by task `t`, before the poll that follows in `finish`. */
  function GivenUp(st: State, t: Task, id: JobId, j: Job, mem: nat): State {
    SetJob(Enter(st, t, mem), id, j).(sched := S.FreeSlot(st.sched), refunds := st.refunds + multiset{id})
  }

  lemma EnterKeepsTasks(frames: map<Task, Frame>, jobs: map<JobId, Job>, t: Task, f: Frame, id: JobId, j: Job)
    requires TasksFit(frames, jobs) && id in jobs
    requires (t == ConnTask(id) && j.phase.Waking? && !jobs[id].phase.Waking? && j.supervisor == jobs[id].supervisor)
          || (t == SupervisorTask(id) && j.phase == jobs[id].phase && j.supervisor.Finished?)
    ensures TasksFit(frames[t := f], jobs[id := j])
  {
  }

  lemma GivenUpTracks(st: State, slot: Slots, t: Task, id: JobId, j: Job, mem: nat)
    requires Tracks(st, slot) && id in slot && id in st.jobs && t !in st.frames && !slot[id].InFrame?
    requires Fits(j, id in QueuedIds(st.sched), id in st.waiters, None) && !j.phase.Checking?
    requires TasksFit(st.frames[t := Frame([], [], mem)], st.jobs[id := j])
    ensures Tracks(GivenUp(st, t, id, j, mem), slot - {id}) && st.sched.running >= 1
  {
    EnterKeepsFrames(st.frames, slot, t, mem, id);
    GiveUpTracks(st, slot, GivenUp(st, t, id, j, mem), id);
  }

  lemma ReturningFits(j: Job, queued: bool, waits: bool, place: Option<Place>)
    requires Fits(j, queued, waits, place) && j.phase.Returning?
    ensures place == Some(AtConn) && Fits(j.(phase := Waking(j.phase.after)), queued, waits, None)
  {
  }

  lemma ReturnTracks(st: State, slot: Slots, id: JobId, mem: nat) returns (slot': Slots)
    requires Tracks(st, slot) && Enabled(st, Return(id, mem))
    ensures Tracks(Next(st, Return(id, mem)), slot') && st.sched.running >= 1
  {
    var t := ConnTask(id);
    var j := st.jobs[id].(phase := Waking(st.jobs[id].phase.after));
    ReturningFits(st.jobs[id], id in QueuedIds(st.sched), id in st.waiters, PlaceOf(slot, id));
    EnterKeepsTasks(st.frames, st.jobs, t, Frame([], [], mem), id, j);
    GivenUpTracks(st, slot, t, id, j, mem);
    slot' := PollIntoTracks(GivenUp(st, t, id, j, mem), slot - {id}, t, mem);
  }

  lemma SuperviseFinishTracks(st: State, slot: Slots, id: JobId, mem: nat) returns (slot': Slots)
    requires Tracks(st, slot) && Enabled(st, SuperviseFinish(id, mem))
    ensures Tracks(Next(st, SuperviseFinish(id, mem)), slot') && st.sched.running >= 1
  {
    var t := SupervisorTask(id);
    var j := st.jobs[id].(supervisor := Finished);
    assert Fits(st.jobs[id], id in QueuedIds(st.sched), id in st.waiters, PlaceOf(slot, id));
    EnterKeepsTasks(st.frames, st.jobs, t, Frame([], [], mem), id, j);
    GivenUpTracks(st, slot, t, id, j, mem);
    slot' := PollIntoTracks(GivenUp(st, t, id, j, mem), slot - {id}, t, mem);
  }

  lemma OrphanLeavesFrame(frames: map<Task, Frame>, slot: Slots, t: Task)
    requires FramesFit(frames, slot) && t in frames && frames[t].orphaned != []
    ensures var f := frames[t]; var id := f.orphaned[0];
            && id in slot && slot[id] == InFrame(t)
            && FramesFit(frames[t := f.(orphaned := f.orphaned[1..])], slot - {id})
  {
    var f := frames[t];
    var id := f.orphaned[0];
    var f' := f.(orphaned := f.orphaned[1..]);
    var n := |f.released|;
    assert FrameIds(f)[n] == id;
    MembersShrink(f, f', id);
    ShrunkFrameFits(frames, slot, t, f', id);
  }

  lemma MembersShrink(f: Frame, f': Frame, id: JobId)
    requires f.orphaned != [] && id == f.orphaned[0] && f' == f.(orphaned := f.orphaned[1..]) && S.Distinct(FrameIds(f))
    ensures S.Distinct(FrameIds(f')) && forall i :: i in FrameIds(f') <==> i in FrameIds(f) && i != id
  {
    var n := |f.released|;
    assert FrameIds(f)[n] == id;
    assert forall k :: 0 <= k < |FrameIds(f')| ==> FrameIds(f')[k] == FrameIds(f)[if k < n then k else k + 1];
    forall i ensures i in FrameIds(f') <==> i in FrameIds(f) && i != id {
      assert FrameIds(f) == f.released + [id] + f'.orphaned;
    }
  }

  lemma ShrunkFrameFits(frames: map<Task, Frame>, slot: Slots, t: Task, f': Frame, id: JobId)
    requires FramesFit(frames, slot) && t in frames && id in FrameIds(frames[t]) && S.Distinct(FrameIds(f'))
    requires forall i :: i in FrameIds(f') <==> i in FrameIds(frames[t]) && i != id
    ensures FramesFit(frames[t := f'], slot - {id})
  {
    forall u, i | u in frames && u != t && i in FrameIds(frames[u]) ensures i != id {
      assert slot[i] == InFrame(u) && slot[id] == InFrame(t);
    }
  }

  lemma ReturnOrphanTracks(st: State, slot: Slots, t: Task) returns (slot': Slots)
    requires Tracks(st, slot) && Enabled(st, ReturnOrphan(t))
    ensures Tracks(Next(st, ReturnOrphan(t)), slot') && st.sched.running >= 1
  {
    var f := st.frames[t];
    var id := f.orphaned[0];
    OrphanLeavesFrame(st.frames, slot, t);
    assert Fits(st.jobs[id], id in QueuedIds(st.sched), id in st.waiters, PlaceOf(slot, id));
    var f' := f.(orphaned := f.orphaned[1..]);
    var mid := st.(frames := st.frames[t := f'], sched := S.FreeSlot(st.sched), refunds := st.refunds + multiset{id});
    PollKeepsTasks(st.frames, st.jobs, t, f');
    assert st.jobs == st.jobs[id := st.jobs[id]];
    GiveUpTracks(st, slot, mid, id);
    slot' := PollIntoTracks(mid, slot - {id}, t, f.mem);
  }

  // ------------------------------------------------------------------------------------------
  // Delivery

  ghost function Woken(f: Frame, waiters: set<JobId>): set<JobId> {
    set id | id in f.released && id in waiters
  }

  ghost function Delivered(slot: Slots, woken: set<JobId>): Slots {
    map id | id in slot :: if id in woken then InMail else slot[id]
  }

  lemma DeliverKeepsJobs(jobs: map<JobId, Job>, queued: set<JobId>, waiters: set<JobId>, slot: Slots, woken: set<JobId>)
    requires JobsFit(jobs, queued, waiters, slot) && woken <= waiters && woken <= slot.Keys
    requires forall id :: id in woken ==> slot[id].InFrame?
    ensures JobsFit(map id | id in jobs :: if id in woken then jobs[id].(mail := Sent) else jobs[id],
                    queued, waiters - woken, Delivered(slot, woken))
  {
    forall id | id in jobs && id in woken
      ensures Fits(jobs[id].(mail := Sent), id in queued, false, Some(InMail))
    {
      assert Fits(jobs[id], id in queued, true, PlaceOf(slot, id));
    }
  }

  lemma {:induction false} OrphansDistinct(ids: seq<JobId>, waiters: set<JobId>)
    requires S.Distinct(ids)
    ensures S.Distinct(Orphans(ids, waiters))
  {
    if ids != [] {
      OrphansDistinct(ids[1..], waiters);
      assert ids[0] !in ids[1..];
    }
  }

  lemma DeliverKeepsFrames(frames: map<Task, Frame>, slot: Slots, t: Task, waiters: set<JobId>)
    requires FramesFit(frames, slot) && t in frames && frames[t].orphaned == []
    ensures var f := frames[t]; var woken := Woken(f, waiters);
            && (forall id :: id in woken ==> id in slot && slot[id] == InFrame(t))
            && FramesFit(frames[t := f.(released := [], orphaned := Orphans(f.released, waiters))], Delivered(slot,
                woken))
  {
    var f := frames[t];
    var f' := f.(released := [], orphaned := Orphans(f.released, waiters));
    assert FrameIds(f) == f.released && FrameIds(f') == f'.orphaned;
    OrphansDistinct(f.released, waiters);
    FrameMembers(frames, slot, t);
    SwapFrame(frames, slot, t, f', Woken(f, waiters));
  }

  lemma FrameMembers(frames: map<Task, Frame>, slot: Slots, t: Task)
    requires FramesFit(frames, slot) && t in frames
    ensures forall id :: id in FrameIds(frames[t]) ==> id in slot && slot[id] == InFrame(t)
  {
  }

  lemma SwapFrame(frames: map<Task, Frame>, slot: Slots, t: Task, f: Frame, woken: set<JobId>)
    requires FramesFit(frames, slot) && t in frames && S.Distinct(FrameIds(f))
    requires forall id :: id in woken ==> id in slot && slot[id] == InFrame(t)
    requires forall id :: id in FrameIds(f) <==> id in FrameIds(frames[t]) && id !in woken
    ensures FramesFit(frames[t := f], Delivered(slot, woken))
  {
    var frames', slot' := frames[t := f], Delivered(slot, woken);
    forall u, id | u in frames' && id in FrameIds(frames'[u]) ensures id in slot' && slot'[id] == InFrame(u) {
      if u == t {
        assert id in FrameIds(frames[t]);
      } else {
        assert id in FrameIds(frames[u]);
      }
    }
    forall id | id in slot' && slot'[id].InFrame?
      ensures slot'[id].task in frames' && id in FrameIds(frames'[slot'[id].task])
    {
      assert id !in woken && slot[id] == slot'[id];
    }
  }

  lemma MailKeepsTasks(frames: map<Task, Frame>, jobs: map<JobId, Job>, jobs': map<JobId, Job>)
    requires TasksFit(frames, jobs) && jobs'.Keys == jobs.Keys
    requires forall id :: id in jobs ==>
      jobs'[id].phase == jobs[id].phase && jobs'[id].supervisor == jobs[id].supervisor
    ensures TasksFit(frames, jobs')
  {
    assert forall id :: id in jobs' <==> id in jobs'.Keys;
  }

  lemma MailKeepsUngranted(jobs: map<JobId, Job>, jobs': map<JobId, Job>, queued: set<JobId>, grants: multiset<JobId>)
    requires Ungranted(jobs, queued, grants) && jobs'.Keys == jobs.Keys
    requires forall id :: id in jobs ==> jobs'[id].phase == jobs[id].phase
    ensures Ungranted(jobs', queued, grants)
  {
    assert forall id :: id in jobs' <==> id in jobs'.Keys;
  }

  lemma DeliverTracks(st: State, slot: Slots, t: Task) returns (slot': Slots)
    requires Tracks(st, slot) && Enabled(st, Deliver(t))
    ensures Tracks(Next(st, Deliver(t)), slot')
  {
    var st' := Next(st, Deliver(t));
    var woken := Woken(st.frames[t], st.waiters);
    DeliverKeepsFrames(st.frames, slot, t, st.waiters);
    slot' := Delivered(slot, woken);
    assert slot'.Keys == slot.Keys;
    assert st'.jobs.Keys == st.jobs.Keys;
    DeliverKeepsJobs(st.jobs, QueuedIds(st.sched), st.waiters, slot, woken);
    PollKeepsTasks(st.frames, st.jobs, t, st'.frames[t]);
    MailKeepsTasks(st'.frames, st.jobs, st'.jobs);
    SameKeysBalanced(st.grants, st.refunds, slot, slot');
    MailKeepsUngranted(st.jobs, st'.jobs, QueuedIds(st.sched), st.grants);
    assert |slot'| == |slot'.Keys|;
  }

  lemma EndWakeKeepsTasks(frames: map<Task, Frame>, jobs: map<JobId, Job>, t: Task, j: Job)
    requires TasksFit(frames, jobs) && t in frames
    requires t.ConnTask? ==>
      t.id in jobs && jobs[t.id].phase.Waking? && !j.phase.Waking? && j.supervisor == jobs[t.id].supervisor
    ensures TasksFit(frames - {t}, if t.ConnTask? then jobs[t.id := j] else jobs)
  {
  }

  lemma EndWakeKeepsFrames(frames: map<Task, Frame>, slot: Slots, t: Task)
    requires FramesFit(frames, slot) && t in frames && FrameIds(frames[t]) == []
    ensures FramesFit(frames - {t}, slot)
  {
  }

  lemma WakingOverFits(j: Job, queued: bool, waits: bool, place: Option<Place>)
    requires Fits(j, queued, waits, place) && j.phase.Waking?
    ensures Fits(j.(phase := PhaseAfter(j.phase.after)), queued, waits, place)
  {
  }

  lemma ConnEndWakeTracks(st: State, slot: Slots, id: JobId, st': State)
    requires Tracks(st, slot) && id in st.jobs && st.jobs[id].phase.Waking? && ConnTask(id) in st.frames
    requires st' == st.(frames := st.frames - {ConnTask(id)}, open := st'.open,
                        jobs := st.jobs[id := st.jobs[id].(phase := PhaseAfter(st.jobs[id].phase.after))])
    requires FramesFit(st'.frames, slot)
    ensures Tracks(st', slot)
  {
    var queued := QueuedIds(st.sched);
    var j := st'.jobs[id];
    assert Fits(st.jobs[id], id in queued, id in st.waiters, PlaceOf(slot, id));
    WakingOverFits(st.jobs[id], id in queued, id in st.waiters, PlaceOf(slot, id));
    EndWakeKeepsTasks(st.frames, st.jobs, ConnTask(id), j);
    OneJobKeepsKeys(st.jobs, queued, st.waiters, st.nextId, id, j, st.waiters);
    OneJobFits(st.jobs, queued, st.waiters, slot, id, j, queued, st.waiters, slot);
    OneJobKeepsUngranted(st.jobs, queued, st.grants, id, j);
  }

  lemma EndWakeTracks(st: State, slot: Slots, t: Task)
    requires Tracks(st, slot) && Enabled(st, EndWake(t))
    ensures Tracks(EndWakeNext(st, t), slot)
  {
    assert FrameIds(st.frames[t]) == [];
    EndWakeKeepsFrames(st.frames, slot, t);
    if t.ConnTask? {
      ConnEndWakeTracks(st, slot, t.id, EndWakeNext(st, t));
    } else {
      EndWakeKeepsTasks(st.frames, st.jobs, t, Job(0, S.Agent, Over, NoMail, NoSupervisor, false, [], []));
    }
  }

  lemma StepTracks(st: State, slot: Slots, a: Action) returns (slot': Slots)
    requires Tracks(st, slot) && Enabled(st, a)
    ensures Tracks(Next(st, a), slot')
  {
    match a
    case Connect(c) => slot' := slot;
    case Hangup(c) => slot' := slot;
    case Submit(c, p) => SubmitTracks(st, slot, c, p); slot' := slot;
    case Local(id, local) => slot' := LocalTracks(st, slot, id, local);
    case Admit(id, mem) => slot' := AdmitTracks(st, slot, id, mem);
    case Register(id) => RegisterTracks(st, slot, id); slot' := slot;
    case Remove(id) => RemoveTracks(st, slot, id); slot' := slot;
    case Unregister(id) => UnregisterTracks(st, slot, id); slot' := slot;
    case Return(id, mem) => slot' := ReturnTracks(st, slot, id, mem);
    case SuperviseFinish(id, mem) => slot' := SuperviseFinishTracks(st, slot, id, mem);
    case Tick(mem) => slot' := TickTracks(st, slot, mem);
    case Deliver(t) => slot' := DeliverTracks(st, slot, t);
    case ReturnOrphan(t) => slot' := ReturnOrphanTracks(st, slot, t);
    case EndWake(t) => EndWakeTracks(st, slot, t); slot' := slot;
  }
}
