/** The eviction planner: `plan` of crates/rbs-store/src/planner.rs. */
module Planner {
  import opened Options
  import opened ObjectKeys

  datatype RemoteObject = RemoteObject(key: string, size: nat, lastModified: int)

  datatype Usage = Usage(hits: int, lastAccessed: Option<int>)

  type UsageMap = map<string, Usage>

  datatype Params = Params(maxBytes: nat, watermark: nat, minAge: int, now: int)

  function Cutoff(p: Params): int {
    p.now - p.minAge
  }

  datatype Reason = Orphan | Lfu

  datatype Eviction = Eviction(cacheKey: string, crateName: string, objects: seq<RemoteObject>, hits: int,
                               lastAccessed: int, lastModified: int, reason: Reason)

  datatype Plan = Plan(scanned: nat, totalBytes: nat, evictions: seq<Eviction>, freedBytes: nat,
                       skippedYoung: nat, junk: seq<RemoteObject>)

  datatype Group = Group(crateName: string, pack: Option<RemoteObject>, manifest: Option<RemoteObject>)

  type Groups = map<string, Group>

  // ------------------------------------------------------------------------------------------
  // Listing

  predicate IsTemporary(o: RemoteObject) {
    EndsWith(o.key, TOUCH_TMP_SUFFIX)
  }

  function Junk(objects: seq<RemoteObject>, cutoff: int): seq<RemoteObject> {
    if objects == [] then []
    else
      var o := objects[|objects| - 1];
      Junk(objects[..|objects| - 1], cutoff) + (if IsTemporary(o) && o.lastModified <= cutoff then [o] else [])
  }

  function Managed(objects: seq<RemoteObject>): seq<RemoteObject> {
    if objects == [] then []
    else
      var o := objects[|objects| - 1];
      Managed(objects[..|objects| - 1]) + (if IsTemporary(o) then [] else [o])
  }

  function Bytes(objects: seq<RemoteObject>): nat {
    if objects == [] then 0 else Bytes(objects[..|objects| - 1]) + objects[|objects| - 1].size
  }

  // ------------------------------------------------------------------------------------------
  // Grouping

  function Parsed(o: RemoteObject): Option<ParsedKey> {
    PlannerParse(o.key)
  }

  function Put(g: Group, p: ParsedKey, o: RemoteObject): Group {
    match p.kind
    case Pack => g.(crateName := p.crateName, pack := Some(o))
    case Manifest => g.(crateName := p.crateName, manifest := Some(o))
  }

  function EntryOf(groups: Groups, cacheKey: string): Group {
    if cacheKey in groups then groups[cacheKey] else Group("", None, None)
  }

  function AddParsed(groups: Groups, p: Option<ParsedKey>, o: RemoteObject): Groups {
    match p
    case None => groups
    case Some(k) => groups[k.cacheKey := Put(EntryOf(groups, k.cacheKey), k, o)]
  }

  function Grouped(objects: seq<RemoteObject>): Groups {
    if objects == [] then map[]
    else AddParsed(Grouped(objects[..|objects| - 1]), Parsed(objects[|objects| - 1]), objects[|objects| - 1])
  }

  function OptionSeq(o: Option<RemoteObject>): seq<RemoteObject> {
    if o.Some? then [o.value] else []
  }

  function Members(g: Group): seq<RemoteObject> {
    OptionSeq(g.pack) + OptionSeq(g.manifest)
  }

  // ------------------------------------------------------------------------------------------
  // Ranking

  function Max(a: int, b: int): int {
    if a >= b then a else b
  }

  function Newest(objects: seq<RemoteObject>, default: int): int {
    if objects == [] then default
    else if |objects| == 1 then objects[0].lastModified
    else Max(objects[0].lastModified, Newest(objects[1..], default))
  }

  function CandidateOf(cacheKey: string, g: Group, index: UsageMap, now: int): Eviction {
    var objects := Members(g);
    var lastModified := Newest(objects, now);
    var usage := if cacheKey in index then index[cacheKey] else Usage(0, None);
    Eviction(cacheKey, g.crateName, objects, usage.hits,
             if usage.lastAccessed.Some? then Max(usage.lastAccessed.value, lastModified) else lastModified,
             lastModified, if g.pack.Some? && g.manifest.Some? then Lfu else Orphan)
  }

  predicate StringLess(a: string, b: string) {
    if b == [] then false
    else if a == [] then true
    else a[0] < b[0] || (a[0] == b[0] && StringLess(a[1..], b[1..]))
  }

  /** Strict ranking: orphans first, then hits, recency and cache key. */
  predicate Less(a: Eviction, b: Eviction) {
    if a.reason != b.reason then a.reason.Orphan?
    else if a.hits != b.hits then a.hits < b.hits
    else if a.lastAccessed != b.lastAccessed then a.lastAccessed < b.lastAccessed
    else StringLess(a.cacheKey, b.cacheKey)
  }

  lemma {:induction false} StringLessOrder(a: string, b: string, c: string)
    ensures !StringLess(a, a)
    ensures StringLess(a, b) && StringLess(b, c) ==> StringLess(a, c)
    ensures StringLess(a, b) || a == b || StringLess(b, a)
  {
    if a != [] {
      StringLessOrder(a[1..], if b == [] then [] else b[1..], if c == [] then [] else c[1..]);
      if b != [] && a[0] == b[0] && a[1..] == b[1..] {
        assert a == [a[0]] + a[1..] && b == [b[0]] + b[1..];
      }
    }
  }

  lemma LessOrder(a: Eviction, b: Eviction, c: Eviction)
    ensures !Less(a, a)
    ensures Less(a, b) && Less(b, c) ==> Less(a, c)
    ensures a.cacheKey != b.cacheKey ==> Less(a, b) || Less(b, a)
  {
    StringLessOrder(a.cacheKey, b.cacheKey, c.cacheKey);
  }

  ghost predicate Ranked(cs: seq<Eviction>) {
    forall i, j :: 0 <= i < j < |cs| ==> Less(cs[i], cs[j])
  }

  /** `cs` is the groups' candidates in ranking order. */
  ghost predicate IsRanking(groups: Groups, index: UsageMap, now: int, cs: seq<Eviction>) {
    && Ranked(cs)
    && forall c :: c in cs <==> c.cacheKey in groups && c == CandidateOf(c.cacheKey, groups[c.cacheKey], index, now)
  }

  /** Strictly sorted sequences with the same elements are equal. */
  lemma {:induction false} RankedUnique(a: seq<Eviction>, b: seq<Eviction>)
    requires Ranked(a) && Ranked(b) && forall c :: c in a <==> c in b
    ensures a == b
  {
    assert b == [] || b[0] in b;
    if a != [] {
      assert a[0] in b && b[0] in a;
      LessOrder(a[0], b[0], a[0]);
      assert a[0] == b[0];
      LessOrder(a[0], a[0], a[0]);
      assert a[0] !in a[1..] && b[0] !in b[1..];
      forall c ensures c in a[1..] <==> c in b[1..] {
        assert c in a <==> c == a[0] || c in a[1..];
        assert c in b <==> c == b[0] || c in b[1..];
      }
      RankedUnique(a[1..], b[1..]);
      assert a == [a[0]] + a[1..] && b == [b[0]] + b[1..];
    }
  }

  function Insert(cs: seq<Eviction>, c: Eviction): (r: seq<Eviction>)
    ensures forall x :: x in r <==> x in cs || x == c
  {
    if cs == [] || Less(c, cs[0]) then [c] + cs
    else assert cs == [cs[0]] + cs[1..]; [cs[0]] + Insert(cs[1..], c)
  }

  lemma {:induction false} InsertRanked(cs: seq<Eviction>, c: Eviction)
    requires Ranked(cs) && forall x :: x in cs ==> x.cacheKey != c.cacheKey
    ensures Ranked(Insert(cs, c))
  {
    if cs != [] {
      LessOrder(c, cs[0], cs[0]);
      if Less(c, cs[0]) {
        forall j | 0 <= j < |cs| ensures Less(c, cs[j]) {
          LessOrder(c, cs[0], cs[j]);
        }
      } else {
        InsertRanked(cs[1..], c);
        assert cs[0] in cs;
        LessOrder(cs[0], c, c);
        var r := Insert(cs[1..], c);
        forall j | 0 <= j < |r| ensures Less(cs[0], r[j]) {
          assert r[j] in r;
          if r[j] != c {
            var k :| 0 <= k < |cs[1..]| && cs[1..][k] == r[j];
            assert cs[k + 1] == r[j];
          }
        }
      }
    }
  }

  /** Collect the candidates of the groups and sort them. */
  method Rank(groups: Groups, index: UsageMap, now: int) returns (cs: seq<Eviction>)
    ensures IsRanking(groups, index, now, cs)
  {
    cs := [];
    var todo := groups.Keys;
    while todo != {}
      invariant todo <= groups.Keys && Ranked(cs)
      invariant forall c :: c in cs <==> c.cacheKey in groups && c.cacheKey !in todo
                                         && c == CandidateOf(c.cacheKey, groups[c.cacheKey], index, now)
      decreases |todo|
    {
      var k :| k in todo;
      var c := CandidateOf(k, groups[k], index, now);
      InsertRanked(cs, c);
      cs := Insert(cs, c);
      todo := todo - {k};
    }
  }

  // ------------------------------------------------------------------------------------------
  // Choosing

  function CandidateBytes(cs: seq<Eviction>): nat {
    if cs == [] then 0 else Bytes(cs[0].objects) + CandidateBytes(cs[1..])
  }

  datatype Choice = Choice(evictions: seq<Eviction>, skippedYoung: nat)

  function Choose(cs: seq<Eviction>, remaining: nat, watermark: nat, cutoff: int): Choice
    requires CandidateBytes(cs) <= remaining
  {
    if cs == [] || remaining <= watermark then Choice([], 0)
    else if cs[0].lastAccessed > cutoff then
      var rest := Choose(cs[1..], remaining, watermark, cutoff);
      rest.(skippedYoung := |cs[0].objects| + rest.skippedYoung)
    else
      var rest := Choose(cs[1..], remaining - Bytes(cs[0].objects), watermark, cutoff);
      rest.(evictions := [cs[0]] + rest.evictions)
  }

  /** The candidates past the age guard, in rank order. */
  function Eligible(cs: seq<Eviction>, cutoff: int): seq<Eviction> {
    if cs == [] then []
    else (if cs[0].lastAccessed > cutoff then [] else [cs[0]]) + Eligible(cs[1..], cutoff)
  }

  /** Evictions are the shortest prefix of the eligible candidates that reaches the watermark. */
  lemma {:induction false} ChooseShortestPrefix(cs: seq<Eviction>, remaining: nat, watermark: nat, cutoff: int)
    requires CandidateBytes(cs) <= remaining
    ensures var es := Eligible(cs, cutoff); var chosen := Choose(cs, remaining, watermark, cutoff).evictions;
            && chosen <= es && CandidateBytes(chosen) <= remaining
            && (forall k :: 0 <= k < |chosen| ==> remaining - CandidateBytes(es[..k]) > watermark)
            && (|chosen| == |es| || remaining - CandidateBytes(chosen) <= watermark)
  {
    if cs != [] && remaining > watermark {
      var es := Eligible(cs, cutoff);
      if cs[0].lastAccessed > cutoff {
        ChooseShortestPrefix(cs[1..], remaining, watermark, cutoff);
        assert es == Eligible(cs[1..], cutoff);
      } else {
        var left := remaining - Bytes(cs[0].objects);
        ChooseShortestPrefix(cs[1..], left, watermark, cutoff);
        assert es[1..] == Eligible(cs[1..], cutoff);
        var chosen := Choose(cs, remaining, watermark, cutoff).evictions;
        assert chosen[1..] == Choose(cs[1..], left, watermark, cutoff).evictions;
        forall k | 0 <= k < |chosen| ensures remaining - CandidateBytes(es[..k]) > watermark {
          if k > 0 {
            assert es[..k][1..] == es[1..][..k - 1];
          }
        }
      }
    }
  }

  // ------------------------------------------------------------------------------------------
  // Accounting: the candidates are disjoint parts of the listing

  ghost function GroupBytes(groups: Groups): nat {
    if groups == map[] then 0
    else var k :| k in groups; Bytes(Members(groups[k])) + GroupBytes(groups - {k})
  }

  lemma {:induction false} GroupBytesWithout(groups: Groups, k: string)
    requires k in groups
    ensures GroupBytes(groups) == Bytes(Members(groups[k])) + GroupBytes(groups - {k})
    decreases |groups|
  {
    var i :| i in groups && GroupBytes(groups) == Bytes(Members(groups[i])) + GroupBytes(groups - {i});
    if i != k {
      var less := groups - {i};
      assert less.Keys == groups.Keys - {i};
      GroupBytesWithout(less, k);
      assert less - {k} == groups - {k} - {i};
      assert (groups - {k}).Keys == groups.Keys - {k};
      GroupBytesWithout(groups - {k}, i);
    }
  }

  lemma MemberBytes(g: Group)
    ensures Bytes(Members(g)) == Bytes(OptionSeq(g.pack)) + Bytes(OptionSeq(g.manifest))
  {
    var a, b := OptionSeq(g.pack), OptionSeq(g.manifest);
    if b == [] {
      assert a + b == a;
    } else {
      assert (a + b)[..|a + b| - 1] == a && b[..|b| - 1] == [];
    }
  }

  lemma PutBytes(g: Group, p: ParsedKey, o: RemoteObject)
    ensures Bytes(Members(Put(g, p, o))) <= Bytes(Members(g)) + o.size
  {
    MemberBytes(g);
    MemberBytes(Put(g, p, o));
    assert [o][..0] == [];
    assert Bytes([o]) == o.size;
  }

  lemma EntryBytes(groups: Groups, k: string, g: Group)
    ensures GroupBytes(groups) == GroupBytes(groups - {k}) + Bytes(Members(EntryOf(groups, k)))
    ensures GroupBytes(groups[k := g]) == GroupBytes(groups - {k}) + Bytes(Members(g))
  {
    var groups' := groups[k := g];
    GroupBytesWithout(groups', k);
    assert groups' - {k} == groups - {k};
    OldEntryBytes(groups, k);
  }

  lemma OldEntryBytes(groups: Groups, k: string)
    ensures GroupBytes(groups) == GroupBytes(groups - {k}) + Bytes(Members(EntryOf(groups, k)))
  {
    if k in groups {
      GroupBytesWithout(groups, k);
    } else {
      assert groups - {k} == groups;
    }
  }

  lemma {:induction false} GroupBytesBounded(objects: seq<RemoteObject>)
    ensures GroupBytes(Grouped(objects)) <= Bytes(objects)
  {
    if objects != [] {
      var o := objects[|objects| - 1];
      var groups := Grouped(objects[..|objects| - 1]);
      GroupBytesBounded(objects[..|objects| - 1]);
      match Parsed(o)
      case None =>
      case Some(p) =>
        var g := Put(EntryOf(groups, p.cacheKey), p, o);
        PutBytes(EntryOf(groups, p.cacheKey), p, o);
        EntryBytes(groups, p.cacheKey, g);
    }
  }

  lemma {:induction false} RankingBytes(groups: Groups, index: UsageMap, now: int, cs: seq<Eviction>)
    requires IsRanking(groups, index, now, cs)
    ensures CandidateBytes(cs) == GroupBytes(groups)
    decreases |cs|
  {
    forall k | k in groups ensures CandidateOf(k, groups[k], index, now) in cs {}
    if cs == [] {
      assert groups == map[];
    } else {
      var c := cs[0];
      assert c in cs;
      RankingOfRest(groups, index, now, cs);
      GroupBytesWithout(groups, c.cacheKey);
      RankingBytes(groups - {c.cacheKey}, index, now, cs[1..]);
    }
  }

  /** Without its first candidate a ranking ranks the other groups. */
  lemma RankingOfRest(groups: Groups, index: UsageMap, now: int, cs: seq<Eviction>)
    requires IsRanking(groups, index, now, cs) && cs != []
    ensures IsRanking(groups - {cs[0].cacheKey}, index, now, cs[1..])
  {
    var c, less := cs[0], groups - {cs[0].cacheKey};
    assert c in cs;
    LessOrder(c, c, c);
    assert c !in cs[1..];
    forall x ensures x in cs[1..] <==>
      x.cacheKey in less && x == CandidateOf(x.cacheKey, less[x.cacheKey], index, now) {
      assert x in cs <==> x == c || x in cs[1..];
    }
  }

  /** `remaining -= bytes` never underflows: all candidates together fit in the listing. */
  lemma CandidatesFit(objects: seq<RemoteObject>, index: UsageMap, now: int, cs: seq<Eviction>)
    requires IsRanking(Grouped(objects), index, now, cs)
    ensures CandidateBytes(cs) <= Bytes(objects)
  {
    RankingBytes(Grouped(objects), index, now, cs);
    GroupBytesBounded(objects);
  }

  // ------------------------------------------------------------------------------------------
  // The plan

  ghost predicate Selects(managed: seq<RemoteObject>, index: UsageMap, p: Params, plan: Plan, cs: seq<Eviction>) {
    && IsRanking(Grouped(managed), index, p.now, cs)
    && CandidateBytes(cs) <= plan.totalBytes
    && Choice(plan.evictions, plan.skippedYoung) == Choose(cs, plan.totalBytes, p.watermark, Cutoff(p))
    && plan.freedBytes == CandidateBytes(plan.evictions)
  }

  ghost predicate IsPlan(objects: seq<RemoteObject>, index: UsageMap, p: Params, plan: Plan) {
    && plan.scanned == |objects|
    && plan.totalBytes == Bytes(Managed(objects))
    && plan.junk == Junk(objects, Cutoff(p))
    && if plan.totalBytes <= p.maxBytes then
         plan.evictions == [] && plan.freedBytes == 0 && plan.skippedYoung == 0
       else
         exists cs :: Selects(Managed(objects), index, p, plan, cs)
  }

  lemma {:induction false} CandidateBytesAppend(a: seq<Eviction>, c: Eviction)
    ensures CandidateBytes(a + [c]) == CandidateBytes(a) + Bytes(c.objects)
  {
    if a == [] {
      assert a + [c] == [c] && [c][1..] == [];
    } else {
      CandidateBytesAppend(a[1..], c);
      assert (a + [c])[1..] == a[1..] + [c];
    }
  }

  method SplitListing(objects: seq<RemoteObject>, cutoff: int)
      returns (junk: seq<RemoteObject>, managed: seq<RemoteObject>, total: nat)
    ensures junk == Junk(objects, cutoff) && managed == Managed(objects) && total == Bytes(managed)
  {
    junk, managed, total := [], [], 0;
    for i := 0 to |objects|
      invariant junk == Junk(objects[..i], cutoff) && managed == Managed(objects[..i]) && total == Bytes(managed)
    {
      var o := objects[i];
      assert objects[..i + 1][..i] == objects[..i];
      if EndsWith(o.key, TOUCH_TMP_SUFFIX) {
        if o.lastModified <= cutoff {
          junk := junk + [o];
        }
      } else {
        total := total + o.size;
        assert (managed + [o])[..|managed|] == managed;
        managed := managed + [o];
      }
    }
    assert objects[..|objects|] == objects;
  }

  lemma GroupedStep(objects: seq<RemoteObject>, i: nat)
    requires i < |objects|
    ensures Grouped(objects[..i + 1]) == AddParsed(Grouped(objects[..i]), Parsed(objects[i]), objects[i])
  {
    assert objects[..i + 1][..i] == objects[..i];
  }

  method GroupObjects(objects: seq<RemoteObject>) returns (groups: Groups)
    ensures groups == Grouped(objects)
  {
    groups := map[];
    for i := 0 to |objects|
      invariant groups == Grouped(objects[..i])
    {
      GroupedStep(objects, i);
      var parsed := Parsed(objects[i]);
      if parsed.Some? {
        var g := EntryOf(groups, parsed.value.cacheKey);
        groups := groups[parsed.value.cacheKey := Put(g, parsed.value, objects[i])];
      }
    }
    assert objects[..|objects|] == objects;
  }

  lemma ChooseStep(cs: seq<Eviction>, i: nat, remaining: nat, watermark: nat, cutoff: int)
    requires i < |cs| && CandidateBytes(cs[i..]) <= remaining && remaining > watermark
    ensures CandidateBytes(cs[i..]) == Bytes(cs[i].objects) + CandidateBytes(cs[i + 1..])
    ensures var c := Choose(cs[i..], remaining, watermark, cutoff);
            if cs[i].lastAccessed > cutoff then
              var rest := Choose(cs[i + 1..], remaining, watermark, cutoff);
              c == Choice(rest.evictions, |cs[i].objects| + rest.skippedYoung)
            else
              var rest := Choose(cs[i + 1..], remaining - Bytes(cs[i].objects), watermark, cutoff);
              c == Choice([cs[i]] + rest.evictions, rest.skippedYoung)
  {
    assert cs[i..][1..] == cs[i + 1..];
  }

  ghost predicate Walking(all: Choice, evictions: seq<Eviction>, skippedYoung: nat, rest: Choice) {
    all == Choice(evictions + rest.evictions, skippedYoung + rest.skippedYoung)
  }

  lemma EvictOne(all: Choice, evictions: seq<Eviction>, skippedYoung: nat, c: Eviction, rest: Choice)
    requires Walking(all, evictions, skippedYoung, Choice([c] + rest.evictions, rest.skippedYoung))
    ensures Walking(all, evictions + [c], skippedYoung, rest)
  {
    assert evictions + ([c] + rest.evictions) == evictions + [c] + rest.evictions;
  }

  /** The walk over the ranked candidates with an unsigned running remainder. */
  method Walk(cs: seq<Eviction>, total: nat, watermark: nat, cutoff: int)
      returns (evictions: seq<Eviction>, freed: nat, skippedYoung: nat)
    requires CandidateBytes(cs) <= total
    ensures Choice(evictions, skippedYoung) == Choose(cs, total, watermark, cutoff)
    ensures freed == CandidateBytes(evictions) && freed <= total
  {
    evictions, freed, skippedYoung := [], 0, 0;
    var remaining: nat := total;
    var i := 0;
    ghost var all := Choose(cs, total, watermark, cutoff);
    assert cs[0..] == cs;
    while i < |cs| && remaining > watermark
      invariant i <= |cs| && remaining + freed == total && freed == CandidateBytes(evictions)
      invariant CandidateBytes(cs[i..]) <= remaining
      invariant Walking(all, evictions, skippedYoung, Choose(cs[i..], remaining, watermark, cutoff))
    {
      ChooseStep(cs, i, remaining, watermark, cutoff);
      if cs[i].lastAccessed > cutoff {
        skippedYoung := skippedYoung + |cs[i].objects|;
      } else {
        CandidateBytesAppend(evictions, cs[i]);
        EvictOne(all, evictions, skippedYoung, cs[i], Choose(cs[i + 1..], remaining - Bytes(cs[i].objects),
            watermark, cutoff));
        remaining := remaining - Bytes(cs[i].objects);
        freed := freed + Bytes(cs[i].objects);
        evictions := evictions + [cs[i]];
      }
      i := i + 1;
    }
    assert evictions + [] == evictions;
  }

  method MakePlan(objects: seq<RemoteObject>, index: UsageMap, p: Params) returns (plan: Plan)
    ensures IsPlan(objects, index, p, plan)
  {
    var junk, managed, total := SplitListing(objects, Cutoff(p));
    plan := Plan(|objects|, total, [], 0, 0, junk);
    if total <= p.maxBytes {
      return;
    }
    var groups := GroupObjects(managed);
    var cs := Rank(groups, index, p.now);
    CandidatesFit(managed, index, p.now, cs);
    var evictions, freed, skippedYoung := Walk(cs, total, p.watermark, Cutoff(p));
    plan := plan.(evictions := evictions, freedBytes := freed, skippedYoung := skippedYoung);
    assert Selects(managed, index, p, plan, cs);
  }
}
