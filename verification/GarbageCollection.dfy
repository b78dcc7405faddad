/** What an eviction plan promises: `plan` and `GcParams::from_store_config` of crates/rbs-store/src/planner.rs. */
module GarbageCollection {
  import opened Options
  import opened ObjectKeys
  import opened Planner

  // ------------------------------------------------------------------------------------------
  // The plan does not depend on the order of the listing

  predicate Agree(p: Option<ParsedKey>, q: Option<ParsedKey>, same: bool) {
    p.Some? && q.Some? && p.value.cacheKey == q.value.cacheKey ==>
      p.value.crateName == q.value.crateName && (p.value.kind == q.value.kind ==> same)
  }

  /** At most one object per kind and cache key, and one crate name per cache key. */
  ghost predicate OnePerSlot(objects: seq<RemoteObject>) {
    forall a, b :: a in objects && b in objects ==> Agree(Parsed(a), Parsed(b), a == b)
  }

  lemma AddCommutes(groups: Groups, p: Option<ParsedKey>, a: RemoteObject, q: Option<ParsedKey>, b: RemoteObject)
    requires Agree(p, q, a == b)
    ensures AddParsed(AddParsed(groups, p, a), q, b) == AddParsed(AddParsed(groups, q, b), p, a)
  {
  }

  lemma GroupedSnoc(xs: seq<RemoteObject>, o: RemoteObject)
    ensures Grouped(xs + [o]) == AddParsed(Grouped(xs), Parsed(o), o)
  {
    assert (xs + [o])[..|xs|] == xs;
  }

  lemma {:induction false} GroupedMiddle(xs: seq<RemoteObject>, o: RemoteObject, ys: seq<RemoteObject>)
    requires OnePerSlot(xs + [o] + ys)
    ensures Grouped(xs + [o] + ys) == Grouped(xs + ys + [o])
  {
    if ys == [] {
      assert xs + [o] + ys == xs + ys + [o];
    } else {
      var zs, z := ys[..|ys| - 1], ys[|ys| - 1];
      var s := xs + [o] + ys;
      assert s == (xs + [o] + zs) + [z] && xs + ys == (xs + zs) + [z];
      assert o in s && z in s && forall x :: x in xs + [o] + zs ==> x in s;
      GroupedMiddle(xs, o, zs);
      GroupedSnoc(xs + [o] + zs, z);
      GroupedSnoc(xs + zs, o);
      GroupedSnoc(xs + zs, z);
      GroupedSnoc(xs + ys, o);
      AddCommutes(Grouped(xs + zs), Parsed(o), o, Parsed(z), z);
    }
  }

  lemma Locate(s: seq<RemoteObject>, o: RemoteObject) returns (xs: seq<RemoteObject>, ys: seq<RemoteObject>)
    requires o in multiset(s)
    ensures s == xs + [o] + ys && multiset(xs + ys) == multiset(s) - multiset{o}
  {
    var i :| 0 <= i < |s| && s[i] == o;
    xs, ys := s[..i], s[i + 1..];
    assert s == xs + [o] + ys;
  }

  lemma {:induction false} GroupedPermutation(a: seq<RemoteObject>, b: seq<RemoteObject>)
    requires multiset(a) == multiset(b) && OnePerSlot(a)
    ensures Grouped(a) == Grouped(b)
  {
    if a == [] {
      assert |multiset(b)| == 0;
    } else {
      var rest, o := a[..|a| - 1], a[|a| - 1];
      assert a == rest + [o];
      assert o in multiset(a);
      var xs, ys := Locate(b, o);
      SameSlots(a, b);
      MoveToEnd(xs, o, ys);
      GroupedSnoc(rest, o);
      FrontCounts(rest, o);
      FrontSlots(rest, o);
      GroupedPermutation(rest, xs + ys);
    }
  }

  lemma FrontCounts(rest: seq<RemoteObject>, o: RemoteObject)
    ensures multiset(rest + [o]) - multiset{o} == multiset(rest)
  {
  }

  lemma FrontSlots(rest: seq<RemoteObject>, o: RemoteObject)
    requires OnePerSlot(rest + [o])
    ensures OnePerSlot(rest)
  {
    assert forall x :: x in rest ==> x in rest + [o];
  }

  lemma MoveToEnd(xs: seq<RemoteObject>, o: RemoteObject, ys: seq<RemoteObject>)
    requires OnePerSlot(xs + [o] + ys)
    ensures Grouped(xs + [o] + ys) == AddParsed(Grouped(xs + ys), Parsed(o), o)
  {
    GroupedMiddle(xs, o, ys);
    GroupedSnoc(xs + ys, o);
  }

  lemma SameSlots(a: seq<RemoteObject>, b: seq<RemoteObject>)
    requires multiset(a) == multiset(b) && OnePerSlot(a)
    ensures OnePerSlot(b)
  {
    forall x | x in b ensures x in a { assert x in multiset(b); }
  }

  lemma {:induction false} BytesConcat(a: seq<RemoteObject>, b: seq<RemoteObject>)
    ensures Bytes(a + b) == Bytes(a) + Bytes(b)
  {
    if b == [] {
      assert a + b == a;
    } else {
      BytesConcat(a, b[..|b| - 1]);
      assert (a + b)[..|a + b| - 1] == a + b[..|b| - 1];
    }
  }

  lemma BytesMiddle(xs: seq<RemoteObject>, o: RemoteObject, ys: seq<RemoteObject>)
    ensures Bytes(xs + [o] + ys) == Bytes(xs + ys) + o.size
  {
    BytesConcat(xs + [o], ys);
    BytesConcat(xs, [o]);
    BytesConcat(xs, ys);
    assert [o][..0] == [];
  }

  lemma {:induction false} BytesPermutation(a: seq<RemoteObject>, b: seq<RemoteObject>)
    requires multiset(a) == multiset(b)
    ensures Bytes(a) == Bytes(b)
  {
    if a == [] {
      assert |multiset(b)| == 0;
    } else {
      var rest, o := a[..|a| - 1], a[|a| - 1];
      assert a == rest + [o];
      assert o in multiset(a);
      var xs, ys := Locate(b, o);
      BytesMiddle(xs, o, ys);
      BytesPermutation(rest, xs + ys);
    }
  }

  lemma {:induction false} ManagedCounts(objects: seq<RemoteObject>, o: RemoteObject)
    ensures multiset(Managed(objects))[o] == if IsTemporary(o) then 0 else multiset(objects)[o]
  {
    if objects != [] {
      var front, last := objects[..|objects| - 1], objects[|objects| - 1];
      ManagedCounts(front, o);
      assert objects == front + [last];
      assert Managed(objects) == Managed(front) + if IsTemporary(last) then [] else [last];
    }
  }

  lemma {:induction false} JunkCounts(objects: seq<RemoteObject>, cutoff: int, o: RemoteObject)
    ensures multiset(Junk(objects, cutoff))[o] ==
            if IsTemporary(o) && o.lastModified <= cutoff then multiset(objects)[o] else 0
  {
    if objects != [] {
      var front, last := objects[..|objects| - 1], objects[|objects| - 1];
      JunkCounts(front, cutoff, o);
      assert objects == front + [last];
      assert Junk(objects, cutoff) ==
        Junk(front, cutoff) + if IsTemporary(last) && last.lastModified <= cutoff then [last] else [];
    }
  }

  /** Equal listings up to order give the same evictions, the same numbers and the same junk. */
  lemma PlanIgnoresListingOrder(a: seq<RemoteObject>, b: seq<RemoteObject>, index: UsageMap, p: Params, planA: Plan,
                                planB: Plan)
    requires multiset(a) == multiset(b) && OnePerSlot(a)
    requires IsPlan(a, index, p, planA) && IsPlan(b, index, p, planB)
    ensures planA.(junk := planB.junk) == planB
    ensures multiset(planA.junk) == multiset(planB.junk)
  {
    var ma, mb := Managed(a), Managed(b);
    forall o ensures multiset(ma)[o] == multiset(mb)[o] && multiset(planA.junk)[o] == multiset(planB.junk)[o] {
      ManagedCounts(a, o);
      JunkCounts(a, Cutoff(p), o);
      ManagedCounts(b, o);
      JunkCounts(b, Cutoff(p), o);
    }
    assert multiset(ma) == multiset(mb);
    BytesPermutation(ma, mb);
    assert |a| == |multiset(a)| == |multiset(b)| == |b|;
    if planA.totalBytes > p.maxBytes {
      forall x | x in ma ensures x in a {
        assert multiset(ma)[x] > 0;
        ManagedCounts(a, x);
        assert x in multiset(a);
      }
      GroupedPermutation(ma, mb);
      var ca :| Selects(ma, index, p, planA, ca);
      var cb :| Selects(mb, index, p, planB, cb);
      RankedUnique(ca, cb);
    }
  }

  // ------------------------------------------------------------------------------------------
  // What the plan promises

  /** The evictions are the shortest prefix of the ranked, old enough candidates that brings the
      total to the watermark, or all of them. */
  lemma PlanIsShortestPrefix(objects: seq<RemoteObject>, index: UsageMap, p: Params, plan: Plan)
    requires IsPlan(objects, index, p, plan) && plan.totalBytes > p.maxBytes
    ensures exists cs :: IsRanking(Grouped(Managed(objects)), index, p.now, cs)
                         && ShortestPrefix(plan, Eligible(cs, Cutoff(p)), p.watermark)
  {
    var cs :| Selects(Managed(objects), index, p, plan, cs);
    ChooseShortestPrefix(cs, plan.totalBytes, p.watermark, Cutoff(p));
    assert ShortestPrefix(plan, Eligible(cs, Cutoff(p)), p.watermark);
  }

  ghost predicate ShortestPrefix(plan: Plan, es: seq<Eviction>, watermark: nat) {
    && plan.evictions <= es
    && plan.freedBytes == CandidateBytes(plan.evictions) <= plan.totalBytes
    && (forall k :: 0 <= k < |plan.evictions| ==> plan.totalBytes - CandidateBytes(es[..k]) > watermark)
    && (plan.evictions == es || plan.totalBytes - plan.freedBytes <= watermark)
  }

  lemma {:induction false} EligibleMembers(cs: seq<Eviction>, cutoff: int, c: Eviction)
    ensures c in Eligible(cs, cutoff) <==> c in cs && c.lastAccessed <= cutoff
  {
    if cs != [] {
      EligibleMembers(cs[1..], cutoff, c);
      assert cs == [cs[0]] + cs[1..];
    }
  }

  lemma {:induction false} EligibleRanked(cs: seq<Eviction>, cutoff: int)
    requires Ranked(cs)
    ensures Ranked(Eligible(cs, cutoff))
  {
    if cs != [] {
      EligibleRanked(cs[1..], cutoff);
      var es := Eligible(cs[1..], cutoff);
      forall j | 0 <= j < |es| ensures Less(cs[0], es[j]) {
        EligibleMembers(cs[1..], cutoff, es[j]);
        assert es[j] in cs[1..];
        var k :| 0 <= k < |cs[1..]| && cs[1..][k] == es[j];
        assert cs[k + 1] == es[j];
      }
    }
  }

  /** Every evicted candidate is one of the groups and old enough. */
  lemma EvictionIsOldGroup(objects: seq<RemoteObject>, index: UsageMap, p: Params, plan: Plan, c: Eviction)
    requires IsPlan(objects, index, p, plan) && c in plan.evictions
    ensures c.lastAccessed <= Cutoff(p)
    ensures var groups := Grouped(Managed(objects));
            c.cacheKey in groups && c == CandidateOf(c.cacheKey, groups[c.cacheKey], index, p.now)
  {
    var cs :| Selects(Managed(objects), index, p, plan, cs);
    ChooseShortestPrefix(cs, plan.totalBytes, p.watermark, Cutoff(p));
    assert plan.evictions <= Eligible(cs, Cutoff(p));
    assert c in Eligible(cs, Cutoff(p));
    EligibleMembers(cs, Cutoff(p), c);
  }

  lemma {:induction false} NewestBounds(objects: seq<RemoteObject>, default: int, o: RemoteObject)
    requires o in objects
    ensures o.lastModified <= Newest(objects, default)
  {
    if |objects| > 1 && o != objects[0] {
      assert objects == [objects[0]] + objects[1..];
      NewestBounds(objects[1..], default, o);
    }
  }

  lemma JunkMembers(objects: seq<RemoteObject>, cutoff: int, o: RemoteObject)
    ensures o in Junk(objects, cutoff) <==> o in objects && IsTemporary(o) && o.lastModified <= cutoff
    ensures o in Managed(objects) <==> o in objects && !IsTemporary(o)
  {
    JunkCounts(objects, cutoff, o);
    ManagedCounts(objects, o);
    assert o in objects <==> o in multiset(objects);
    assert o in Junk(objects, cutoff) <==> o in multiset(Junk(objects, cutoff));
    assert o in Managed(objects) <==> o in multiset(Managed(objects));
  }

  /** No object newer than the cutoff is evicted or junked. */
  lemma YoungObjectsAreKept(objects: seq<RemoteObject>, index: UsageMap, p: Params, plan: Plan, o: RemoteObject)
    requires IsPlan(objects, index, p, plan)
    requires o in plan.junk || exists c :: c in plan.evictions && o in c.objects
    ensures o.lastModified <= Cutoff(p)
  {
    if o in plan.junk {
      JunkMembers(objects, Cutoff(p), o);
    } else {
      var c :| c in plan.evictions && o in c.objects;
      EvictionIsOldGroup(objects, index, p, plan, c);
      NewestBounds(c.objects, p.now, o);
    }
  }

  // ------------------------------------------------------------------------------------------
  // The watermark

  const GIB := 1024 * 1024 * 1024
  const U64 := 0x1_0000_0000_0000_0000

  function MaxBytes(maxSizeGib: nat): nat {
    maxSizeGib * GIB
  }

  function Percent(lowWatermarkPercent: nat): nat {
    if lowWatermarkPercent < 100 then lowWatermarkPercent else 100
  }

  function Watermark(maxBytes: nat, percent: nat): nat {
    maxBytes / 100 * percent + maxBytes % 100 * percent / 100
  }

  lemma WatermarkFloor(q: nat, r: nat, percent: nat)
    requires r < 100 && percent <= 100
    ensures (100 * q + r) * percent / 100 == q * percent + r * percent / 100
    ensures q * percent <= 100 * q && r * percent <= 100 * r
  {
    var a, b := q * percent, r * percent;
    assert (100 * q + r) * percent == 100 * a + b;
    assert (100 * a + b) / 100 == a + b / 100;
  }

  lemma WatermarkBounds(m: nat, percent: nat)
    requires percent <= 100
    ensures Watermark(m, percent) == m * percent / 100 && Watermark(m, percent) <= m
    ensures m / 100 * percent <= m && m % 100 * percent <= 9900
  {
    var q, r := m / 100, m % 100;
    WatermarkFloor(q, r, percent);
    assert m == 100 * q + r;
  }

  /** For a `u32` size and a `u8` percentage: the floor of the exact product, within the cap, and no
      intermediate value reaches 2^64. */
  lemma WatermarkExact(maxSizeGib: nat, lowWatermarkPercent: nat)
    requires maxSizeGib < 0x1_0000_0000 && lowWatermarkPercent < 256
    ensures var m, pc := MaxBytes(maxSizeGib), Percent(lowWatermarkPercent);
            && m == maxSizeGib * 1_073_741_824 && pc <= 100
            && (lowWatermarkPercent <= 100 ==> pc == lowWatermarkPercent)
            && (lowWatermarkPercent > 100 ==> pc == 100)
            && Watermark(m, pc) == m * pc / 100
            && Watermark(m, pc) <= m < U64
            && m / 100 * pc <= m && m % 100 * pc < U64
  {
    WatermarkBounds(MaxBytes(maxSizeGib), Percent(lowWatermarkPercent));
  }

  // ------------------------------------------------------------------------------------------
  // What is in a group

  /** Group members come from the listing and carry the kind and cache key of their place. */
  ghost predicate MembersFit(groups: Groups, objects: seq<RemoteObject>) {
    forall k :: k in groups ==>
      && (groups[k].pack.Some? ==> groups[k].pack.value in objects && PlacedAt(groups[k].pack.value, Pack, k))
      && (groups[k].manifest.Some? ==>
          groups[k].manifest.value in objects && PlacedAt(groups[k].manifest.value, Manifest, k))
  }

  predicate PlacedAt(o: RemoteObject, kind: Kind, cacheKey: string) {
    Parsed(o).Some? && Parsed(o).value.kind == kind && Parsed(o).value.cacheKey == cacheKey
  }

  lemma AddFits(groups: Groups, objects: seq<RemoteObject>, o: RemoteObject)
    requires MembersFit(groups, objects)
    ensures MembersFit(AddParsed(groups, Parsed(o), o), objects + [o])
  {
    assert forall x :: x in objects ==> x in objects + [o];
    assert o in objects + [o];
  }

  lemma {:induction false} GroupedMembersFit(objects: seq<RemoteObject>)
    ensures MembersFit(Grouped(objects), objects)
  {
    if objects != [] {
      var rest, o := objects[..|objects| - 1], objects[|objects| - 1];
      assert objects == rest + [o];
      GroupedMembersFit(rest);
      GroupedSnoc(rest, o);
      AddFits(Grouped(rest), rest, o);
    }
  }

  ghost predicate Evicts(plan: Plan, key: string) {
    exists c, o :: c in plan.evictions && o in c.objects && o.key == key
  }

  /** An evicted object belongs to the listing, parses, and shares its cache key with its group. */
  lemma EvictedObject(objects: seq<RemoteObject>, index: UsageMap, p: Params, plan: Plan, c: Eviction, o: RemoteObject)
    requires IsPlan(objects, index, p, plan) && c in plan.evictions && o in c.objects
    ensures o in objects && !IsTemporary(o)
    ensures Parsed(o).Some? && Parsed(o).value.cacheKey == c.cacheKey
  {
    EvictionIsOldGroup(objects, index, p, plan, c);
    GroupedMembersFit(Managed(objects));
    JunkMembers(objects, 0, o);
  }

  /** Under one object per slot, a group holds every object of its cache key. */
  ghost predicate Complete(groups: Groups, objects: seq<RemoteObject>) {
    forall o :: o in objects && Parsed(o).Some? ==>
      Parsed(o).value.cacheKey in groups && o in Members(groups[Parsed(o).value.cacheKey])
  }

  lemma AddCompletes(groups: Groups, objects: seq<RemoteObject>, o: RemoteObject, p: Option<ParsedKey>)
    requires Complete(groups, objects) && MembersFit(groups, objects) && p == Parsed(o)
    requires forall x :: x in objects ==> Agree(Parsed(x), p, x == o)
    ensures Complete(AddParsed(groups, p, o), objects + [o])
  {
    var groups' := AddParsed(groups, p, o);
    forall x | x in objects + [o] && Parsed(x).Some?
      ensures Parsed(x).value.cacheKey in groups' && x in Members(groups'[Parsed(x).value.cacheKey])
    {
      var k := Parsed(x).value.cacheKey;
      if x != o {
        assert x in objects && x in Members(groups[k]);
        if p.Some? && p.value.cacheKey == k {
          assert p.value.kind != Parsed(x).value.kind;
        }
      }
    }
  }

  lemma {:induction false} GroupedCompletes(objects: seq<RemoteObject>)
    requires OnePerSlot(objects)
    ensures Complete(Grouped(objects), objects)
  {
    if objects != [] {
      var rest, o := objects[..|objects| - 1], objects[|objects| - 1];
      assert objects == rest + [o];
      assert forall x :: x in rest ==> x in objects;
      GroupedCompletes(rest);
      GroupedMembersFit(rest);
      GroupedSnoc(rest, o);
      AddCompletes(Grouped(rest), rest, o, Parsed(o));
    }
  }

  /** Objects that share a cache key are evicted together or not at all. */
  lemma PairsStayWhole(objects: seq<RemoteObject>, index: UsageMap, p: Params, plan: Plan, a: RemoteObject,
                       b: RemoteObject)
    requires IsPlan(objects, index, p, plan) && OnePerSlot(objects)
    requires forall x, y :: x in objects && y in objects && x.key == y.key ==> x == y
    requires a in objects && b in objects && !IsTemporary(a) && !IsTemporary(b)
    requires Parsed(a).Some? && Parsed(b).Some? && Parsed(a).value.cacheKey == Parsed(b).value.cacheKey
    ensures Evicts(plan, a.key) ==> Evicts(plan, b.key)
  {
    if Evicts(plan, a.key) {
      var c, o :| c in plan.evictions && o in c.objects && o.key == a.key;
      EvictedObject(objects, index, p, plan, c, o);
      assert o == a;
      EvictionIsOldGroup(objects, index, p, plan, c);
      forall x | x in Managed(objects) ensures x in objects { JunkMembers(objects, 0, x); }
      JunkMembers(objects, 0, b);
      GroupedCompletes(Managed(objects));
      assert b in c.objects;
    }
  }
}
