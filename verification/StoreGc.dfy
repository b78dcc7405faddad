/** One garbage collection run against the store: list, plan, delete. Deletions that find nothing are
    fine; a deletion error ends the source's run early and is not modelled. */
module StoreGc {
  import opened Options
  import opened ObjectKeys
  import opened Planner
  import opened GarbageCollection

  // ------------------------------------------------------------------------------------------
  // Bytes left after the evictions

  ghost predicate DistinctKeys(xs: seq<RemoteObject>) {
    forall i, j :: 0 <= i < j < |xs| ==> xs[i].key != xs[j].key
  }

  function Without(xs: seq<RemoteObject>, keys: set<string>): seq<RemoteObject> {
    if xs == [] then []
    else
      var o := xs[|xs| - 1];
      Without(xs[..|xs| - 1], keys) + (if o.key in keys then [] else [o])
  }

  ghost function KeysOf(xs: seq<RemoteObject>): set<string> {
    set o | o in xs :: o.key
  }

  lemma {:induction false} WithoutMembers(xs: seq<RemoteObject>, keys: set<string>, o: RemoteObject)
    ensures o in Without(xs, keys) <==> o in xs && o.key !in keys
  {
    if xs != [] {
      WithoutMembers(xs[..|xs| - 1], keys, o);
      assert xs == xs[..|xs| - 1] + [xs[|xs| - 1]];
    }
  }

  lemma BytesSnoc(xs: seq<RemoteObject>, o: RemoteObject)
    ensures Bytes(xs + [o]) == Bytes(xs) + o.size
  {
    assert (xs + [o])[..|xs|] == xs;
  }

  /** The size of what `Without` keeps. */
  function KeptBytes(xs: seq<RemoteObject>, keys: set<string>): nat {
    if xs == [] then 0
    else KeptBytes(xs[..|xs| - 1], keys) + if xs[|xs| - 1].key in keys then 0 else xs[|xs| - 1].size
  }

  lemma {:induction false} BytesOfKept(xs: seq<RemoteObject>, keys: set<string>)
    ensures Bytes(Without(xs, keys)) == KeptBytes(xs, keys)
  {
    if xs != [] {
      var before, o := Without(xs[..|xs| - 1], keys), xs[|xs| - 1];
      BytesOfKept(xs[..|xs| - 1], keys);
      BytesSnoc(before, o);
      assert before + [] == before;
    }
  }

  lemma {:induction false} KeptOneLess(xs: seq<RemoteObject>, keys: set<string>, d: RemoteObject)
    requires DistinctKeys(xs) && d in xs && d.key !in keys
    ensures KeptBytes(xs, keys + {d.key}) + d.size == KeptBytes(xs, keys)
  {
    var rest, o := xs[..|xs| - 1], xs[|xs| - 1];
    if o == d {
      KeptAbsent(rest, keys, d.key);
    } else {
      var i :| 0 <= i < |xs| && xs[i] == d;
      assert rest[i] == d && xs[i].key != xs[|xs| - 1].key;
      KeptOneLess(rest, keys, d);
    }
  }

  lemma {:induction false} KeptAbsent(xs: seq<RemoteObject>, keys: set<string>, key: string)
    requires forall i :: 0 <= i < |xs| ==> xs[i].key != key
    ensures KeptBytes(xs, keys + {key}) == KeptBytes(xs, keys)
  {
    if xs != [] {
      KeptAbsent(xs[..|xs| - 1], keys, key);
    }
  }

  lemma {:induction false} KeptAll(xs: seq<RemoteObject>)
    ensures KeptBytes(xs, {}) == Bytes(xs)
  {
    if xs != [] {
      KeptAll(xs[..|xs| - 1]);
    }
  }

  lemma {:induction false} KeptRest(xs: seq<RemoteObject>, ds: seq<RemoteObject>)
    requires DistinctKeys(xs) && DistinctKeys(ds) && forall d :: d in ds ==> d in xs
    ensures KeptBytes(xs, KeysOf(ds)) + Bytes(ds) == Bytes(xs)
  {
    if ds == [] {
      KeptAll(xs);
      assert KeysOf(ds) == {};
    } else {
      var rest, d := ds[..|ds| - 1], ds[|ds| - 1];
      assert ds == rest + [d];
      KeptRest(xs, rest);
      assert KeysOf(ds) == KeysOf(rest) + {d.key};
      assert d.key !in KeysOf(rest);
      KeptOneLess(xs, KeysOf(rest), d);
    }
  }

  // ------------------------------------------------------------------------------------------
  // The evicted objects as one list

  function Flatten(es: seq<Eviction>): seq<RemoteObject> {
    if es == [] then [] else es[0].objects + Flatten(es[1..])
  }

  lemma {:induction false} FlattenMembers(es: seq<Eviction>, o: RemoteObject)
    ensures o in Flatten(es) <==> exists c :: c in es && o in c.objects
  {
    if es != [] {
      FlattenMembers(es[1..], o);
      assert es == [es[0]] + es[1..];
      if o in es[0].objects {
        assert es[0] in es;
      }
    }
  }

  lemma {:induction false} FlattenBytes(es: seq<Eviction>)
    ensures Bytes(Flatten(es)) == CandidateBytes(es)
  {
    if es != [] {
      FlattenBytes(es[1..]);
      BytesConcat(es[0].objects, Flatten(es[1..]));
    }
  }

  /** Candidates of different cache keys whose objects carry those cache keys. */
  ghost predicate Apart(es: seq<Eviction>) {
    && (forall i, j :: 0 <= i < j < |es| ==> es[i].cacheKey != es[j].cacheKey)
    && (forall i :: 0 <= i < |es| ==> DistinctKeys(es[i].objects))
    && (forall i, o :: 0 <= i < |es| && o in es[i].objects ==>
        Parsed(o).Some? && Parsed(o).value.cacheKey == es[i].cacheKey)
  }

  lemma {:induction false} FlattenDistinct(es: seq<Eviction>)
    requires Apart(es)
    ensures DistinctKeys(Flatten(es))
  {
    if es != [] {
      FlattenDistinct(es[1..]);
      forall a, b | a in es[0].objects && b in Flatten(es[1..]) ensures a.key != b.key {
        FlattenMembers(es[1..], b);
        var c :| c in es[1..] && b in c.objects;
        var j :| 0 <= j < |es[1..]| && es[1..][j] == c;
        assert es[j + 1] == c;
        SameKeyParsesSame(a, b);
      }
      JoinDistinct(es[0].objects, Flatten(es[1..]));
    }
  }

  lemma SameKeyParsesSame(a: RemoteObject, b: RemoteObject)
    ensures a.key == b.key ==> Parsed(a) == Parsed(b)
  {
  }

  lemma JoinDistinct(xs: seq<RemoteObject>, ys: seq<RemoteObject>)
    requires DistinctKeys(xs) && DistinctKeys(ys)
    requires forall a, b :: a in xs && b in ys ==> a.key != b.key
    ensures DistinctKeys(xs + ys)
  {
    var s := xs + ys;
    forall i, j | 0 <= i < j < |s| ensures s[i].key != s[j].key {
      if i < |xs| <= j {
        assert s[i] in xs && s[j] in ys;
      }
    }
  }

  lemma EvictionsApart(objects: seq<RemoteObject>, index: UsageMap, p: Params, plan: Plan)
    requires IsPlan(objects, index, p, plan)
    ensures Apart(plan.evictions)
  {
    EvictionKeysDiffer(objects, index, p, plan);
    EvictionsDistinct(objects, index, p, plan);
    EvictionsParse(objects, index, p, plan);
  }

  lemma EvictionsParse(objects: seq<RemoteObject>, index: UsageMap, p: Params, plan: Plan)
    requires IsPlan(objects, index, p, plan)
    ensures forall i, o :: 0 <= i < |plan.evictions| && o in plan.evictions[i].objects ==>
      Parsed(o).Some? && Parsed(o).value.cacheKey == plan.evictions[i].cacheKey
  {
    var es := plan.evictions;
    forall i, o | 0 <= i < |es| && o in es[i].objects
      ensures Parsed(o).Some? && Parsed(o).value.cacheKey == es[i].cacheKey
    {
      EvictedObject(objects, index, p, plan, es[i], o);
    }
  }

  lemma GroupDistinct(groups: Groups, objects: seq<RemoteObject>, k: string)
    requires MembersFit(groups, objects) && k in groups
    ensures DistinctKeys(Members(groups[k]))
  {
  }

  lemma EvictionsDistinct(objects: seq<RemoteObject>, index: UsageMap, p: Params, plan: Plan)
    requires IsPlan(objects, index, p, plan)
    ensures forall i :: 0 <= i < |plan.evictions| ==> DistinctKeys(plan.evictions[i].objects)
  {
    var es, groups := plan.evictions, Grouped(Managed(objects));
    GroupedMembersFit(Managed(objects));
    forall i | 0 <= i < |es| ensures DistinctKeys(es[i].objects) {
      EvictionIsOldGroup(objects, index, p, plan, es[i]);
      GroupDistinct(groups, Managed(objects), es[i].cacheKey);
    }
  }

  lemma EvictionKeysDiffer(objects: seq<RemoteObject>, index: UsageMap, p: Params, plan: Plan)
    requires IsPlan(objects, index, p, plan)
    ensures forall i, j :: 0 <= i < j < |plan.evictions| ==> plan.evictions[i].cacheKey != plan.evictions[j].cacheKey
  {
    var es := plan.evictions;
    if es != [] {
      var cs :| Selects(Managed(objects), index, p, plan, cs);
      ChooseShortestPrefix(cs, plan.totalBytes, p.watermark, Cutoff(p));
      EligibleRanked(cs, Cutoff(p));
      forall i, j | 0 <= i < j < |es| ensures es[i].cacheKey != es[j].cacheKey {
        assert es[i] == Eligible(cs, Cutoff(p))[i] && es[j] == Eligible(cs, Cutoff(p))[j];
        EvictionIsOldGroup(objects, index, p, plan, es[i]);
        EvictionIsOldGroup(objects, index, p, plan, es[j]);
        LessOrder(es[i], es[i], es[i]);
      }
    }
  }

  /** The evictions free exactly what the plan says: the objects that remain add up to the rest. */
  lemma BytesAfterPlan(objects: seq<RemoteObject>, index: UsageMap, p: Params, plan: Plan)
    requires IsPlan(objects, index, p, plan) && DistinctKeys(Managed(objects))
    ensures Bytes(Without(Managed(objects), KeysOf(Flatten(plan.evictions)))) == plan.totalBytes - plan.freedBytes
  {
    var ds := Flatten(plan.evictions);
    EvictionsApart(objects, index, p, plan);
    FlattenDistinct(plan.evictions);
    forall d | d in ds ensures d in Managed(objects) {
      FlattenMembers(plan.evictions, d);
      var c :| c in plan.evictions && d in c.objects;
      EvictedObject(objects, index, p, plan, c, d);
      JunkMembers(objects, 0, d);
    }
    KeptRest(Managed(objects), ds);
    BytesOfKept(Managed(objects), KeysOf(ds));
    FlattenBytes(plan.evictions);
  }

  // ------------------------------------------------------------------------------------------
  // The store

  datatype Meta = Meta(size: nat, lastModified: int)

  function ObjectAt(key: string, m: Meta): RemoteObject {
    RemoteObject(key, m.size, m.lastModified)
  }

  ghost predicate SortedByKey(l: seq<RemoteObject>) {
    forall i, j :: 0 <= i < j < |l| ==> StringLess(l[i].key, l[j].key)
  }

  /** `l` lists what is stored under the prefix, each object once, by key. */
  ghost predicate IsListing(objects: map<string, Meta>, prefix: string, l: seq<RemoteObject>) {
    && SortedByKey(l)
    && forall o :: o in l <==> o.key in objects && Lead(prefix) <= o.key && o == ObjectAt(o.key, objects[o.key])
  }

  lemma SortedDistinct(l: seq<RemoteObject>)
    requires SortedByKey(l)
    ensures DistinctKeys(l)
  {
    forall i, j | 0 <= i < j < |l| ensures l[i].key != l[j].key {
      StringLessOrder(l[i].key, l[j].key, l[i].key);
    }
  }

  function InsertObject(l: seq<RemoteObject>, o: RemoteObject): (r: seq<RemoteObject>)
    ensures forall x :: x in r <==> x in l || x == o
  {
    if l == [] || StringLess(o.key, l[0].key) then [o] + l
    else assert l == [l[0]] + l[1..]; [l[0]] + InsertObject(l[1..], o)
  }

  lemma {:induction false} InsertObjectSorted(l: seq<RemoteObject>, o: RemoteObject)
    requires SortedByKey(l) && forall x :: x in l ==> x.key != o.key
    ensures SortedByKey(InsertObject(l, o))
  {
    if l != [] {
      assert l[0] in l;
      StringLessOrder(o.key, l[0].key, o.key);
      if StringLess(o.key, l[0].key) {
        SortedCons(o, l);
      } else {
        InsertObjectSorted(l[1..], o);
        FirstStays(l, o);
      }
    }
  }

  lemma SortedCons(o: RemoteObject, l: seq<RemoteObject>)
    requires SortedByKey(l) && l != [] && StringLess(o.key, l[0].key)
    ensures SortedByKey([o] + l)
  {
    forall j | 0 <= j < |l| ensures StringLess(o.key, l[j].key) {
      StringLessOrder(o.key, l[0].key, l[j].key);
    }
  }

  lemma FirstStays(l: seq<RemoteObject>, o: RemoteObject)
    requires SortedByKey(l) && l != [] && StringLess(l[0].key, o.key) && SortedByKey(InsertObject(l[1..], o))
    ensures SortedByKey([l[0]] + InsertObject(l[1..], o))
  {
    var r := InsertObject(l[1..], o);
    forall j | 0 <= j < |r| ensures StringLess(l[0].key, r[j].key) {
      assert r[j] in r;
      if r[j] != o {
        var k :| 0 <= k < |l[1..]| && l[1..][k] == r[j];
        assert l[k + 1] == r[j];
      }
    }
  }

  function DeletedObjects(plan: Plan): seq<RemoteObject> {
    Flatten(plan.evictions) + plan.junk
  }

  ghost function DeletedKeys(plan: Plan): set<string> {
    KeysOf(DeletedObjects(plan))
  }

  datatype Report = Report(scanned: nat, totalBytes: nat, evicted: nat, freedBytes: nat, skippedYoung: nat,
      junkDeleted: nat)

  function ReportOf(plan: Plan): Report {
    Report(plan.scanned, plan.totalBytes, |Flatten(plan.evictions)|, plan.freedBytes, plan.skippedYoung, |plan.junk|)
  }

  datatype Execution = Executed(report: Report) | DeleteFailed(key: string)

  /** What executing a plan may do to the store: `faulty` are the keys whose deletion errs. The first error
      ends the run with some of the other deletions done. */
  ghost predicate Executes(plan: Plan, dryRun: bool, faulty: set<string>,
                           before: map<string, Meta>, after: map<string, Meta>, r: Execution) {
    match r
    case Executed(report) =>
      && report == ReportOf(plan)
      && (dryRun || DeletedKeys(plan) !! faulty)
      && after == if dryRun then before else before - DeletedKeys(plan)
    case DeleteFailed(key) =>
      && !dryRun && key in DeletedKeys(plan) && key in faulty
      && exists gone: set<string> :: gone <= DeletedKeys(plan) - faulty && after == before - gone
  }

  class ObjectStore {
    var objects: map<string, Meta>

    constructor (objects: map<string, Meta>)
      ensures this.objects == objects
    {
      this.objects := objects;
    }

    method List(prefix: string) returns (l: seq<RemoteObject>)
      ensures IsListing(objects, prefix, l)
    {
      l := [];
      var todo := objects.Keys;
      while todo != {}
        invariant todo <= objects.Keys && SortedByKey(l)
        invariant forall o :: o in l <==>
          o.key in objects && o.key !in todo && Lead(prefix) <= o.key && o == ObjectAt(o.key, objects[o.key])
        decreases |todo|
      {
        var k :| k in todo;
        if Lead(prefix) <= k {
          InsertObjectSorted(l, ObjectAt(k, objects[k]));
          l := InsertObject(l, ObjectAt(k, objects[k]));
        }
        todo := todo - {k};
      }
    }

    /** An object that is already gone is fine. */
    method Delete(key: string, fails: bool) returns (ok: bool)
      modifies this
      ensures ok == !fails
      ensures objects == if fails then old(objects) else old(objects) - {key}
    {
      if !fails {
        objects := objects - {key};
      }
      return !fails;
    }

    /** The deletions complete in any order; the first error ends the run. */
    method Execute(plan: Plan, dryRun: bool, faulty: set<string>) returns (r: Execution)
      modifies this
      ensures Executes(plan, dryRun, faulty, old(objects), objects, r)
    {
      if dryRun {
        return Executed(ReportOf(plan));
      }
      var todo := set o <- DeletedObjects(plan) :: o.key;
      ghost var gone: set<string> := {};
      assert objects == old(objects) - gone;
      while todo != {}
        invariant gone + todo == DeletedKeys(plan) && gone !! faulty
        invariant objects == old(objects) - gone
        decreases |todo|
      {
        var key :| key in todo;
        var ok := Delete(key, key in faulty);
        if !ok {
          return DeleteFailed(key);
        }
        gone, todo := gone + {key}, todo - {key};
      }
      return Executed(ReportOf(plan));
    }

    /** A whole run: list, plan, execute. */
    method Collect(prefix: string, index: UsageMap, p: Params, dryRun: bool, faulty: set<string>)
      returns (listed: seq<RemoteObject>, plan: Plan, r: Execution)
      modifies this
      ensures IsListing(old(objects), prefix, listed) && IsPlan(listed, index, p, plan)
      ensures Executes(plan, dryRun, faulty, old(objects), objects, r)
    {
      listed := List(prefix);
      plan := MakePlan(listed, index, p);
      r := Execute(plan, dryRun, faulty);
    }
  }

  // ------------------------------------------------------------------------------------------
  // What a run deletes

  lemma {:induction false} ManagedDistinct(l: seq<RemoteObject>)
    requires DistinctKeys(l)
    ensures DistinctKeys(Managed(l))
  {
    if l != [] {
      var rest, o := l[..|l| - 1], l[|l| - 1];
      ManagedDistinct(rest);
      forall i | 0 <= i < |Managed(rest)| ensures Managed(rest)[i].key != o.key {
        JunkMembers(rest, 0, Managed(rest)[i]);
        var k :| 0 <= k < |rest| && rest[k] == Managed(rest)[i];
        assert l[k].key != l[|l| - 1].key;
      }
    }
  }

  lemma {:induction false} JunkDistinct(l: seq<RemoteObject>, cutoff: int)
    requires DistinctKeys(l)
    ensures DistinctKeys(Junk(l, cutoff))
  {
    if l != [] {
      var rest, o := l[..|l| - 1], l[|l| - 1];
      JunkDistinct(rest, cutoff);
      forall i | 0 <= i < |Junk(rest, cutoff)| ensures Junk(rest, cutoff)[i].key != o.key {
        JunkMembers(rest, cutoff, Junk(rest, cutoff)[i]);
        var k :| 0 <= k < |rest| && rest[k] == Junk(rest, cutoff)[i];
        assert l[k].key != l[|l| - 1].key;
      }
    }
  }

  lemma {:induction false} KeysCounted(xs: seq<RemoteObject>)
    requires DistinctKeys(xs)
    ensures |KeysOf(xs)| == |xs|
  {
    if xs != [] {
      var front, o := xs[..|xs| - 1], xs[|xs| - 1];
      KeysCounted(front);
      assert xs == front + [o];
      assert KeysOf(xs) == KeysOf(front) + {o.key};
      assert o.key !in KeysOf(front);
    }
  }

  /** The report tells what was listed, and how many keys went: those of the evicted groups and the stranded copies. */
  lemma ReportCountsDeletions(l: seq<RemoteObject>, index: UsageMap, p: Params, plan: Plan)
    requires IsPlan(l, index, p, plan) && DistinctKeys(l)
    ensures var r := ReportOf(plan);
      && r.scanned == |l|
      && r.evicted == |set c, o | c in plan.evictions && o in c.objects :: o.key|
      && r.junkDeleted == |set o | o in plan.junk :: o.key|
      && r.evicted + r.junkDeleted == |DeletedKeys(plan)|
  {
    EvictionsApart(l, index, p, plan);
    FlattenDistinct(plan.evictions);
    JunkDistinct(l, Cutoff(p));
    KeysCounted(Flatten(plan.evictions));
    KeysCounted(plan.junk);
    GoneOrJunk(l, index, p, plan);
    FlattenKeys(plan.evictions);
    BothKeys(Flatten(plan.evictions), plan.junk);
  }

  lemma BothKeys(a: seq<RemoteObject>, b: seq<RemoteObject>)
    ensures KeysOf(a + b) == KeysOf(a) + KeysOf(b)
    ensures KeysOf(a) !! KeysOf(b) ==> |KeysOf(a + b)| == |KeysOf(a)| + |KeysOf(b)|
  {
  }

  lemma FlattenKeys(es: seq<Eviction>)
    ensures KeysOf(Flatten(es)) == set c, o | c in es && o in c.objects :: o.key
  {
    forall o ensures o in Flatten(es) <==> exists c :: c in es && o in c.objects {
      FlattenMembers(es, o);
    }
  }

  lemma GoneOrJunk(l: seq<RemoteObject>, index: UsageMap, p: Params, plan: Plan)
    requires IsPlan(l, index, p, plan)
    ensures KeysOf(Flatten(plan.evictions)) !! KeysOf(plan.junk)
  {
    forall a, b | a in Flatten(plan.evictions) && b in plan.junk ensures a.key != b.key {
      FlattenMembers(plan.evictions, a);
      var c :| c in plan.evictions && a in c.objects;
      EvictedObject(l, index, p, plan, c, a);
      JunkMembers(l, Cutoff(p), b);
    }
  }

  /** Everything deleted was listed and is old; it is a stranded copy, or the planner took it for a store key.
      Whether it is a key of this store, as the prefix-aware parser says, depends on its key alone. */
  lemma DeletedObject(prefix: string, l: seq<RemoteObject>, index: UsageMap, p: Params, plan: Plan, o: RemoteObject)
    requires IsPlan(l, index, p, plan) && o in DeletedObjects(plan)
    ensures o in l && o.lastModified <= Cutoff(p)
    ensures IsTemporary(o) || (ParseObjectKey(prefix, o.key).Some? <==> Unambiguous(prefix, o.key))
  {
    if o in plan.junk {
      JunkMembers(l, Cutoff(p), o);
    } else {
      FlattenMembers(plan.evictions, o);
      var c :| c in plan.evictions && o in c.objects;
      EvictedObject(l, index, p, plan, c, o);
      YoungObjectsAreKept(l, index, p, plan, o);
      TakenKey(prefix, o.key);
    }
  }

  lemma TakenKey(prefix: string, key: string)
    requires PlannerParse(key).Some?
    ensures ParseObjectKey(prefix, key).Some? <==> Unambiguous(prefix, key)
  {
    var head := ParsedHead(key, PlannerParse(key).value);
    RoutesOfLaidOut(prefix, key, head, PlannerParse(key).value);
    RoutesAgreeExactly(prefix, key);
  }

  /** A run over the cap brings the managed bytes to the watermark or evicts every group old enough. It deletes nothing
      young; and nothing but this store's keys and stranded copies, provided every listed key is unambiguous. */
  lemma CollectOutcome(objects: map<string, Meta>, prefix: string, l: seq<RemoteObject>, index: UsageMap, p: Params,
                       plan: Plan)
    requires IsListing(objects, prefix, l) && IsPlan(l, index, p, plan)
    ensures forall k :: k in DeletedKeys(plan) ==> k in objects && objects[k].lastModified <= Cutoff(p)
    ensures forall k :: k in DeletedKeys(plan) ==>
      EndsWith(k, TOUCH_TMP_SUFFIX) || (ParseObjectKey(prefix, k).Some? <==> Unambiguous(prefix, k))
    ensures (forall o :: o in l ==> Unambiguous(prefix, o.key)) ==>
      forall k :: k in DeletedKeys(plan) ==> EndsWith(k, TOUCH_TMP_SUFFIX) || ParseObjectKey(prefix, k).Some?
    ensures var after := Bytes(Without(Managed(l), KeysOf(Flatten(plan.evictions))));
            && after == plan.totalBytes - plan.freedBytes
            && (plan.totalBytes > p.maxBytes ==> after <= p.watermark || OldGroupsEvicted(l, index, p, plan))
  {
    SortedDistinct(l);
    ManagedDistinct(l);
    BytesAfterPlan(l, index, p, plan);
    forall k | k in DeletedKeys(plan)
      ensures exists o :: o in l && o.key == k && o.lastModified <= Cutoff(p)
      ensures EndsWith(k, TOUCH_TMP_SUFFIX) || (ParseObjectKey(prefix, k).Some? <==> Unambiguous(prefix, k))
    {
      var o :| o in DeletedObjects(plan) && o.key == k;
      DeletedObject(prefix, l, index, p, plan, o);
    }
    if plan.totalBytes > p.maxBytes && plan.totalBytes - plan.freedBytes > p.watermark {
      OldGroupsGone(l, index, p, plan);
    }
  }

  ghost predicate OldGroupsEvicted(l: seq<RemoteObject>, index: UsageMap, p: Params, plan: Plan) {
    var groups := Grouped(Managed(l));
    forall k :: k in groups ==>
      var c := CandidateOf(k, groups[k], index, p.now);
      c.lastAccessed <= Cutoff(p) ==> c in plan.evictions
  }

  lemma OldGroupsGone(l: seq<RemoteObject>, index: UsageMap, p: Params, plan: Plan)
    requires IsPlan(l, index, p, plan)
    requires plan.totalBytes > p.maxBytes && plan.totalBytes - plan.freedBytes > p.watermark
    ensures OldGroupsEvicted(l, index, p, plan)
  {
    PlanIsShortestPrefix(l, index, p, plan);
    var groups := Grouped(Managed(l));
    var cs :| IsRanking(groups, index, p.now, cs) && ShortestPrefix(plan, Eligible(cs, Cutoff(p)), p.watermark);
    forall k | k in groups && CandidateOf(k, groups[k], index, p.now).lastAccessed <= Cutoff(p)
      ensures CandidateOf(k, groups[k], index, p.now) in plan.evictions
    {
      EligibleMembers(cs, Cutoff(p), CandidateOf(k, groups[k], index, p.now));
    }
  }

  // ------------------------------------------------------------------------------------------
  // A foreign object is evicted

  lemma LoneGroup(o: RemoteObject, k: ParsedKey)
    requires !IsTemporary(o) && Parsed(o) == Some(k)
    ensures Managed([o]) == [o] && Bytes([o]) == o.size
    ensures Grouped([o]).Keys == {k.cacheKey} && Members(Grouped([o])[k.cacheKey]) == [o]
  {
    assert [o][..0] == [];
    assert Grouped([o]) == AddParsed(map[], Some(k), o);
  }

  /** An old object alone over the cap is evicted by every plan, whichever store it belongs to. */
  lemma LoneObjectEvicted(o: RemoteObject, k: ParsedKey, p: Params, plan: Plan)
    requires !IsTemporary(o) && Parsed(o) == Some(k) && o.lastModified <= Cutoff(p)
    requires p.watermark <= p.maxBytes < o.size && IsPlan([o], map[], p, plan)
    ensures o in DeletedObjects(plan)
  {
    LoneGroup(o, k);
    PlanIsShortestPrefix([o], map[], p, plan);
    var groups := Grouped([o]);
    var cs :|
      IsRanking(Grouped(Managed([o])), map[], p.now, cs) && ShortestPrefix(plan, Eligible(cs, Cutoff(p)), p.watermark);
    LoneCandidate(o, k, p, cs);
    FirstEvicted(plan, Eligible(cs, Cutoff(p)), p.watermark);
    FlattenMembers(plan.evictions, o);
  }

  lemma FirstEvicted(plan: Plan, es: seq<Eviction>, watermark: nat)
    requires ShortestPrefix(plan, es, watermark) && plan.totalBytes > watermark && es != []
    ensures es[0] in plan.evictions
  {
    assert plan.evictions == [] ==> plan.freedBytes == 0;
    assert plan.evictions[0] == es[0];
  }

  lemma LoneCandidate(o: RemoteObject, k: ParsedKey, p: Params, cs: seq<Eviction>)
    requires !IsTemporary(o) && Parsed(o) == Some(k) && o.lastModified <= Cutoff(p)
    requires IsRanking(Grouped([o]), map[], p.now, cs)
    ensures var es := Eligible(cs, Cutoff(p)); es != [] && es[0].objects == [o]
  {
    LoneGroup(o, k);
    var c := CandidateOf(k.cacheKey, Grouped([o])[k.cacheKey], map[], p.now);
    assert c.objects == [o] && c.lastAccessed == o.lastModified;
    EligibleMembers(cs, Cutoff(p), c);
    var es := Eligible(cs, Cutoff(p));
    EligibleMembers(cs, Cutoff(p), es[0]);
    assert es[0] in cs;
  }

  /** So a run for the prefix `a` can delete a key of the store under `a/b`, which its own parser does not manage. */
  lemma ForeignObjectEvicted(p: Params, plan: Plan)
    requires p.watermark <= p.maxBytes
    requires IsPlan([RemoteObject(Nested(), p.maxBytes + 1, Cutoff(p))], map[], p, plan)
    ensures Nested() in DeletedKeys(plan) && Lead("a") <= Nested() && ParseObjectKey("a", Nested()) == None
  {
    var o := RemoteObject(Nested(), p.maxBytes + 1, Cutoff(p));
    CleanPrefixNotEnough();
    assert Nested()[|Nested()| - 1] == 't' && TOUCH_TMP_SUFFIX[9] == 'p';
    LoneObjectEvicted(o, Sample(), p, plan);
  }

  // ------------------------------------------------------------------------------------------
  // The next listing

  lemma {:induction false} DistinctCount(xs: seq<RemoteObject>, o: RemoteObject)
    requires DistinctKeys(xs)
    ensures multiset(xs)[o] == if o in xs then 1 else 0
  {
    if xs != [] {
      var rest, last := xs[..|xs| - 1], xs[|xs| - 1];
      DistinctCount(rest, o);
      assert xs == rest + [last];
      assert last !in rest;
    }
  }

  lemma SameMembersSameBytes(xs: seq<RemoteObject>, ys: seq<RemoteObject>)
    requires DistinctKeys(xs) && DistinctKeys(ys) && forall o :: o in xs <==> o in ys
    ensures Bytes(xs) == Bytes(ys)
  {
    forall o: RemoteObject ensures multiset(xs)[o] == multiset(ys)[o] {
      DistinctCount(xs, o);
      DistinctCount(ys, o);
    }
    assert multiset(xs) == multiset(ys);
    BytesPermutation(xs, ys);
  }

  lemma {:induction false} WithoutDistinct(xs: seq<RemoteObject>, keys: set<string>)
    requires DistinctKeys(xs)
    ensures DistinctKeys(Without(xs, keys))
  {
    if xs != [] {
      var rest, last := xs[..|xs| - 1], xs[|xs| - 1];
      WithoutDistinct(rest, keys);
      forall i | 0 <= i < |Without(rest, keys)| ensures Without(rest, keys)[i].key != last.key {
        WithoutMembers(rest, keys, Without(rest, keys)[i]);
        var k :| 0 <= k < |rest| && rest[k] == Without(rest, keys)[i];
        assert xs[k].key != xs[|xs| - 1].key;
      }
    }
  }

  /** What the next listing manages is what this one managed without the evicted objects. */
  lemma NextManaged(objects: map<string, Meta>, prefix: string, l: seq<RemoteObject>, index: UsageMap, p: Params,
                    plan: Plan, l': seq<RemoteObject>, o: RemoteObject)
    requires IsListing(objects, prefix, l) && IsPlan(l, index, p, plan)
    requires IsListing(objects - DeletedKeys(plan), prefix, l')
    ensures o in Managed(l') <==> o in Without(Managed(l), KeysOf(Flatten(plan.evictions)))
  {
    JunkMembers(l, 0, o);
    JunkMembers(l', 0, o);
    WithoutMembers(Managed(l), KeysOf(Flatten(plan.evictions)), o);
    if !IsTemporary(o) {
      forall x | x in plan.junk ensures x.key != o.key {
        JunkMembers(l, Cutoff(p), x);
      }
      assert o.key in DeletedKeys(plan) <==> o.key in KeysOf(Flatten(plan.evictions));
    }
  }

  /** Listing again after a run finds the total less the freed bytes; when that is the watermark or below, another run
      under the same cap - at any time, with any usage index - evicts nothing. */
  lemma NextRun(objects: map<string, Meta>, prefix: string, l: seq<RemoteObject>, index: UsageMap, p: Params,
                plan: Plan,
                l': seq<RemoteObject>, index': UsageMap, p': Params, plan': Plan)
    requires IsListing(objects, prefix, l) && IsPlan(l, index, p, plan)
    requires IsListing(objects - DeletedKeys(plan), prefix, l') && IsPlan(l', index', p', plan')
    ensures plan'.totalBytes == plan.totalBytes - plan.freedBytes
    ensures p.watermark <= p.maxBytes <= p'.maxBytes && plan'.totalBytes <= p.watermark ==> plan'.evictions == []
  {
    SortedDistinct(l);
    SortedDistinct(l');
    ManagedDistinct(l);
    ManagedDistinct(l');
    BytesAfterPlan(l, index, p, plan);
    var kept := Without(Managed(l), KeysOf(Flatten(plan.evictions)));
    WithoutDistinct(Managed(l), KeysOf(Flatten(plan.evictions)));
    forall o ensures o in Managed(l') <==> o in kept {
      NextManaged(objects, prefix, l, index, p, plan, l', o);
    }
    SameMembersSameBytes(Managed(l'), kept);
  }
}
