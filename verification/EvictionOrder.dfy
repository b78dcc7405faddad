/** Which groups go first, told from the listing and the usage index alone: least useful first, and nothing used since
    the cutoff. The ranking of crates/rbs-store/src/planner.rs is compared here with what it is for. */
module EvictionOrder {
  import opened Options
  import opened ObjectKeys
  import opened Planner
  import opened GarbageCollection

  // ------------------------------------------------------------------------------------------
  // Facts about a group, from listing and index

  /** The listing holds an object of this kind for the cache key. */
  ghost predicate Holds(objects: seq<RemoteObject>, kind: Kind, k: string) {
    exists o :: o in objects && Parsed(o).Some? && Parsed(o).value.kind == kind && Parsed(o).value.cacheKey == k
  }

  ghost predicate Paired(objects: seq<RemoteObject>, k: string) {
    Holds(objects, Pack, k) && Holds(objects, Manifest, k)
  }

  function Hits(index: UsageMap, k: string): int {
    if k in index then index[k].hits else 0
  }

  /** `t` is the last use: an upload or touch of a member, or the access the index records, whichever is later. */
  ghost predicate UsedLast(members: seq<RemoteObject>, index: UsageMap, k: string, t: int) {
    var known := k in index && index[k].lastAccessed.Some?;
    && (forall o :: o in members ==> o.lastModified <= t)
    && (known ==> index[k].lastAccessed.value <= t)
    && ((exists o :: o in members && o.lastModified == t) || (known && index[k].lastAccessed.value == t))
  }

  /** Order of strings: at the first difference the smaller character, or the end, comes first. */
  ghost predicate LexBefore(a: string, b: string) {
    exists i :: FirstDifference(a, b, i)
  }

  ghost predicate FirstDifference(a: string, b: string, i: int) {
    0 <= i <= |a| && i < |b| && a[..i] == b[..i] && (i == |a| || a[i] < b[i])
  }

  lemma {:induction false} StringLessExactly(a: string, b: string)
    ensures StringLess(a, b) <==> LexBefore(a, b)
  {
    if a != [] && b != [] && a[0] == b[0] {
      StringLessExactly(a[1..], b[1..]);
      if i :| FirstDifference(a, b, i) {
        assert i != 0;
        assert a[1..][..i - 1] == a[..i][1..] && b[1..][..i - 1] == b[..i][1..];
        assert FirstDifference(a[1..], b[1..], i - 1);
      }
      if j :| FirstDifference(a[1..], b[1..], j) {
        assert a[..j + 1] == [a[0]] + a[1..][..j] && b[..j + 1] == [b[0]] + b[1..][..j];
        assert FirstDifference(a, b, j + 1);
      }
    } else if StringLess(a, b) {
      assert FirstDifference(a, b, 0);
    } else {
      forall i ensures FirstDifference(a, b, i) && i > 0 ==> a != [] && b != [] && a[0] == b[0] {
        AgreeBefore(a, b, i);
      }
    }
  }

  lemma AgreeBefore(a: string, b: string, i: int)
    ensures FirstDifference(a, b, i) && i > 0 ==> a != [] && b != [] && a[0] == b[0]
  {
    if FirstDifference(a, b, i) && i > 0 {
      assert a[..i][0] == b[..i][0];
    }
  }

  /** A group has a pack, or a manifest, exactly when the listing has one for its key. */
  lemma {:induction false} GroupHolds(objects: seq<RemoteObject>, k: string)
    ensures var groups := Grouped(objects);
      && (k in groups && groups[k].pack.Some? <==> Holds(objects, Pack, k))
      && (k in groups && groups[k].manifest.Some? <==> Holds(objects, Manifest, k))
      && (k in groups ==> groups[k].pack.Some? || groups[k].manifest.Some?)
  {
    if objects != [] {
      var rest, o := objects[..|objects| - 1], objects[|objects| - 1];
      assert objects == rest + [o];
      GroupHolds(rest, k);
      GroupedSnoc(rest, o);
      HoldsOneMore(rest, o, Pack, k);
      HoldsOneMore(rest, o, Manifest, k);
      AddedKinds(Grouped(rest), Parsed(o), o, k);
    }
  }

  lemma AddedKinds(groups: Groups, p: Option<ParsedKey>, o: RemoteObject, k: string)
    ensures var groups' := AddParsed(groups, p, o); var here := p.Some? && p.value.cacheKey == k;
      && (k in groups' <==> k in groups || here)
      && (k in groups' ==>
            && (groups'[k].pack.Some? <==> (k in groups && groups[k].pack.Some?) || (here && p.value.kind.Pack?))
            && (groups'[k].manifest.Some? <==>
                  (k in groups && groups[k].manifest.Some?) || (here && p.value.kind.Manifest?)))
  {
  }

  lemma HoldsOneMore(rest: seq<RemoteObject>, o: RemoteObject, kind: Kind, k: string)
    ensures Holds(rest + [o], kind, k) <==>
      Holds(rest, kind, k) || (Parsed(o).Some? && Parsed(o).value.kind == kind && Parsed(o).value.cacheKey == k)
  {
    assert o in rest + [o];
    if x :| x in rest && Parsed(x).Some? && Parsed(x).value.kind == kind && Parsed(x).value.cacheKey == k {
      assert x in rest + [o];
    }
  }

  lemma {:induction false} NewestAttained(objects: seq<RemoteObject>, default: int)
    requires objects != []
    ensures exists o :: o in objects && o.lastModified == Newest(objects, default)
  {
    if |objects| == 1 {
      assert objects[0] in objects;
    } else {
      NewestAttained(objects[1..], default);
      var o :| o in objects[1..] && o.lastModified == Newest(objects[1..], default);
      assert objects[0] in objects && o in objects;
    }
  }

  /** The candidate's recency is the last use, and there is only one. */
  lemma CandidateUse(k: string, g: Group, index: UsageMap, now: int, t: int)
    requires Members(g) != []
    ensures UsedLast(Members(g), index, k, t) <==> t == CandidateOf(k, g, index, now).lastAccessed
  {
    var members := Members(g);
    forall o | o in members ensures o.lastModified <= Newest(members, now) {
      NewestBounds(members, now, o);
    }
    NewestAttained(members, now);
  }

  // ------------------------------------------------------------------------------------------
  // The order of the evictions

  /** Group `c` is to go before group `d`: incomplete before complete, then fewer hits, then the earlier last use, then
      the smaller key. */
  ghost predicate GoesFirst(objects: seq<RemoteObject>, index: UsageMap, c: string, tc: int, d: string, td: int) {
    var whole, whole' := Paired(objects, c), Paired(objects, d);
    || (!whole && whole')
    || (whole == whole' && Hits(index, c) < Hits(index, d))
    || (whole == whole' && Hits(index, c) == Hits(index, d) && tc < td)
    || (whole == whole' && Hits(index, c) == Hits(index, d) && tc == td && LexBefore(c, d))
  }

  lemma LessGoesFirst(objects: seq<RemoteObject>, index: UsageMap, now: int, c: string, d: string)
    requires var groups := Grouped(objects); c in groups && d in groups
    ensures var a := CandidateOf(c, Grouped(objects)[c], index, now);
      var b := CandidateOf(d, Grouped(objects)[d], index, now);
      Less(a, b) <==> GoesFirst(objects, index, c, a.lastAccessed, d, b.lastAccessed)
  {
    CandidateFacts(objects, index, now, c);
    CandidateFacts(objects, index, now, d);
    StringLessExactly(c, d);
  }

  lemma CandidateFacts(objects: seq<RemoteObject>, index: UsageMap, now: int, k: string)
    requires k in Grouped(objects)
    ensures var c := CandidateOf(k, Grouped(objects)[k], index, now);
      (c.reason.Lfu? <==> Paired(objects, k)) && c.hits == Hits(index, k) && c.cacheKey == k
  {
    GroupHolds(objects, k);
  }

  /** Every evicted group goes before every group past the cutoff that was kept. */
  lemma LeastUsedFirst(objects: seq<RemoteObject>, index: UsageMap, p: Params, plan: Plan,
                       c: Eviction, tc: int, d: string, td: int)
    requires IsPlan(objects, index, p, plan) && c in plan.evictions
    requires d in Grouped(Managed(objects)) && forall e :: e in plan.evictions ==> e.cacheKey != d
    requires UsedLast(Members(Grouped(Managed(objects))[d]), index, d, td) && td <= p.now - p.minAge
    requires UsedLast(c.objects, index, c.cacheKey, tc)
    ensures GoesFirst(Managed(objects), index, c.cacheKey, tc, d, td)
  {
    var managed := Managed(objects);
    var groups := Grouped(managed);
    EvictionIsOldGroup(objects, index, p, plan, c);
    GroupHolds(managed, c.cacheKey);
    GroupHolds(managed, d);
    CandidateUse(c.cacheKey, groups[c.cacheKey], index, p.now, tc);
    CandidateUse(d, groups[d], index, p.now, td);
    KeptComesLater(objects, index, p, plan, c, CandidateOf(d, groups[d], index, p.now));
    LessGoesFirst(managed, index, p.now, c.cacheKey, d);
  }

  lemma KeptComesLater(objects: seq<RemoteObject>, index: UsageMap, p: Params, plan: Plan, c: Eviction, d: Eviction)
    requires IsPlan(objects, index, p, plan) && c in plan.evictions && d !in plan.evictions
    requires var groups := Grouped(Managed(objects));
      d.cacheKey in groups && d == CandidateOf(d.cacheKey, groups[d.cacheKey], index, p.now)
    requires d.lastAccessed <= Cutoff(p)
    ensures Less(c, d)
  {
    var cs :| Selects(Managed(objects), index, p, plan, cs);
    var es := Eligible(cs, Cutoff(p));
    ChooseShortestPrefix(cs, plan.totalBytes, p.watermark, Cutoff(p));
    EligibleMembers(cs, Cutoff(p), d);
    EligibleRanked(cs, Cutoff(p));
    RankedApart(plan.evictions, es, c, d);
  }

  lemma RankedApart(chosen: seq<Eviction>, es: seq<Eviction>, c: Eviction, d: Eviction)
    requires chosen <= es && Ranked(es) && c in chosen && d in es && d !in chosen
    ensures Less(c, d)
  {
    var i :| 0 <= i < |chosen| && chosen[i] == c;
    var j :| 0 <= j < |es| && es[j] == d;
    assert chosen == es[..|chosen|];
    assert es[i] == c && j >= |chosen|;
  }

  /** No evicted group was used after the cutoff: neither uploaded or touched, nor accessed by the index. */
  lemma RecentUseProtects(objects: seq<RemoteObject>, index: UsageMap, p: Params, plan: Plan, c: Eviction)
    requires IsPlan(objects, index, p, plan) && c in plan.evictions
    ensures forall o :: o in c.objects ==> o.lastModified <= p.now - p.minAge
    ensures c.cacheKey in index && index[c.cacheKey].lastAccessed.Some? ==>
      index[c.cacheKey].lastAccessed.value <= p.now - p.minAge
  {
    EvictionIsOldGroup(objects, index, p, plan, c);
    var groups := Grouped(Managed(objects));
    GroupHolds(Managed(objects), c.cacheKey);
    CandidateUse(c.cacheKey, groups[c.cacheKey], index, p.now, c.lastAccessed);
  }

  /** At or under the cap nothing is evicted, skipped or freed. */
  lemma UnderCapNothingGoes(objects: seq<RemoteObject>, index: UsageMap, p: Params, plan: Plan)
    requires IsPlan(objects, index, p, plan) && Bytes(Managed(objects)) <= p.maxBytes
    ensures plan.evictions == [] && plan.freedBytes == 0 && plan.skippedYoung == 0
  {
  }

  // ------------------------------------------------------------------------------------------
  // What the walk passed over

  function YoungObjects(cs: seq<Eviction>, cutoff: int): nat {
    if cs == [] then 0
    else (if cs[0].lastAccessed > cutoff then |cs[0].objects| else 0) + YoungObjects(cs[1..], cutoff)
  }

  /** Bytes of the candidates old enough to go. */
  function OldBytes(cs: seq<Eviction>, cutoff: int): nat {
    if cs == [] then 0
    else (if cs[0].lastAccessed > cutoff then 0 else Bytes(cs[0].objects)) + OldBytes(cs[1..], cutoff)
  }

  /** The walk covers `walked` and stops in front of `rest`: it evicts what is old and counts what is young; before its
      last candidate the store was above the watermark, and after it no longer, or nothing is left. */
  ghost predicate WalkCovers(walked: seq<Eviction>, rest: seq<Eviction>, total: nat, watermark: nat, cutoff: int,
                             evictions: seq<Eviction>, skipped: nat) {
    && evictions == Eligible(walked, cutoff) && skipped == YoungObjects(walked, cutoff)
    && (rest == [] || total - OldBytes(walked, cutoff) <= watermark)
    && (walked == [] || total - OldBytes(walked[..|walked| - 1], cutoff) > watermark)
  }

  lemma WalkOne(c: Eviction, walked: seq<Eviction>, rest: seq<Eviction>, total: nat, watermark: nat, cutoff: int,
                evictions: seq<Eviction>, skipped: nat)
    requires total > watermark && (c.lastAccessed > cutoff || Bytes(c.objects) <= total)
    requires var left := if c.lastAccessed > cutoff then total else total - Bytes(c.objects);
      WalkCovers(walked, rest, left, watermark, cutoff, evictions, skipped)
    ensures WalkCovers([c] + walked, rest, total, watermark, cutoff,
                       (if c.lastAccessed > cutoff then [] else [c]) + evictions,
                       (if c.lastAccessed > cutoff then |c.objects| else 0) + skipped)
  {
    var all := [c] + walked;
    assert all[1..] == walked;
    if walked == [] {
      assert all[..0] == [];
    } else {
      var front := all[..|walked|];
      assert front[0] == c && front[1..] == walked[..|walked| - 1];
    }
  }

  lemma {:induction false} SkippedExactly(cs: seq<Eviction>, total: nat, watermark: nat, cutoff: int)
    returns (walked: seq<Eviction>, rest: seq<Eviction>)
    requires CandidateBytes(cs) <= total
    ensures cs == walked + rest
    ensures var c := Choose(cs, total, watermark, cutoff);
      WalkCovers(walked, rest, total, watermark, cutoff, c.evictions, c.skippedYoung)
  {
    if cs == [] || total <= watermark {
      walked, rest := [], cs;
    } else {
      var c, others := cs[0], cs[1..];
      assert cs == [c] + others;
      var left := if c.lastAccessed > cutoff then total else total - Bytes(c.objects);
      var w, r := SkippedExactly(others, left, watermark, cutoff);
      ChooseFirst(c, others, cs, total, left, watermark, cutoff);
      var more := Choose(others, left, watermark, cutoff);
      WalkOne(c, w, r, total, watermark, cutoff, more.evictions, more.skippedYoung);
      walked, rest := [c] + w, r;
      JoinFirst(c, w, r);
    }
  }

  lemma JoinFirst(c: Eviction, w: seq<Eviction>, r: seq<Eviction>)
    ensures [c] + (w + r) == [c] + w + r
  {
  }

  lemma ChooseFirst(c: Eviction, others: seq<Eviction>, cs: seq<Eviction>, total: nat, left: nat,
                    watermark: nat, cutoff: int)
    requires cs == [c] + others && CandidateBytes(cs) <= total && total > watermark
    requires left == if c.lastAccessed > cutoff then total else total - Bytes(c.objects)
    ensures CandidateBytes(others) <= left
    ensures var more := Choose(others, left, watermark, cutoff);
      Choose(cs, total, watermark, cutoff) ==
        Choice((if c.lastAccessed > cutoff then [] else [c]) + more.evictions,
               (if c.lastAccessed > cutoff then |c.objects| else 0) + more.skippedYoung)
  {
    assert cs[1..] == others;
    var more := Choose(others, left, watermark, cutoff);
    assert [] + more.evictions == more.evictions;
  }

  /** The walk over the ranking behind a plan, and so the number it reports as protected by age. */
  lemma SkippedYoungExactly(objects: seq<RemoteObject>, index: UsageMap, p: Params, plan: Plan)
    returns (walked: seq<Eviction>, rest: seq<Eviction>)
    requires IsPlan(objects, index, p, plan) && Bytes(Managed(objects)) > p.maxBytes
    ensures IsRanking(Grouped(Managed(objects)), index, p.now, walked + rest)
    ensures WalkCovers(walked, rest, Bytes(Managed(objects)), p.watermark, p.now - p.minAge, plan.evictions,
                       plan.skippedYoung)
  {
    var cs :| Selects(Managed(objects), index, p, plan, cs);
    walked, rest := SkippedExactly(cs, plan.totalBytes, p.watermark, Cutoff(p));
  }

  // ------------------------------------------------------------------------------------------
  // Stranded copies

  /** A plan sweeps exactly the intermediates of touches that are old enough, and counts everything else as content. */
  lemma SweptExactly(objects: seq<RemoteObject>, index: UsageMap, p: Params, plan: Plan, o: RemoteObject)
    requires IsPlan(objects, index, p, plan)
    ensures o in plan.junk <==>
      o in objects && 10 <= |o.key| && o.key[|o.key| - 10..] == ".touch-tmp" && o.lastModified <= p.now - p.minAge
    ensures o in Managed(objects) <==> o in objects && !(10 <= |o.key| && o.key[|o.key| - 10..] == ".touch-tmp")
  {
    JunkMembers(objects, Cutoff(p), o);
  }

  // ------------------------------------------------------------------------------------------
  // What an eviction says about its group

  predicate IsOf(o: RemoteObject, kind: Kind, k: string) {
    Parsed(o).Some? && Parsed(o).value.kind == kind && Parsed(o).value.cacheKey == k
  }

  /** `o` is the last object of this kind and cache key in the listing: under another crate, a later one replaces an
      earlier one. */
  ghost predicate LastListed(objects: seq<RemoteObject>, kind: Kind, k: string, o: RemoteObject) {
    exists i :: 0 <= i < |objects| && LastAt(objects, kind, k, o, i)
  }

  ghost predicate LastAt(objects: seq<RemoteObject>, kind: Kind, k: string, o: RemoteObject, i: nat)
    requires i < |objects|
  {
    objects[i] == o && IsOf(o, kind, k) && forall j :: i < j < |objects| ==> !IsOf(objects[j], kind, k)
  }

  lemma LastOneMore(rest: seq<RemoteObject>, o: RemoteObject, kind: Kind, k: string, x: RemoteObject)
    ensures LastListed(rest + [o], kind, k, x) <==> if IsOf(o, kind, k) then x == o else LastListed(rest, kind, k, x)
  {
    var all, n := rest + [o], |rest|;
    assert all[n] == o;
    if i :| 0 <= i < |all| && LastAt(all, kind, k, x, i) {
      if i < n {
        forall j | i < j < n ensures !IsOf(rest[j], kind, k) {
          assert all[j] == rest[j];
        }
        assert LastAt(rest, kind, k, x, i);
      }
    }
    if IsOf(o, kind, k) {
      assert LastAt(all, kind, k, o, n);
    } else if i :| 0 <= i < n && LastAt(rest, kind, k, x, i) {
      assert LastAt(all, kind, k, x, i);
    }
  }

  lemma {:induction false} GroupHoldsLast(objects: seq<RemoteObject>, k: string, x: RemoteObject)
    ensures var groups := Grouped(objects);
      && (k in groups && groups[k].pack == Some(x) <==> LastListed(objects, Pack, k, x))
      && (k in groups && groups[k].manifest == Some(x) <==> LastListed(objects, Manifest, k, x))
  {
    if objects != [] {
      var rest, o := objects[..|objects| - 1], objects[|objects| - 1];
      assert objects == rest + [o];
      GroupHoldsLast(rest, k, x);
      GroupedSnoc(rest, o);
      LastOneMore(rest, o, Pack, k, x);
      LastOneMore(rest, o, Manifest, k, x);
    }
  }

  /** An eviction is described by the listing and the index: its objects are the pack and the manifest listed last for
      its key, its hits are the index's, and it is an orphan exactly when one of the two is missing. */
  lemma EvictionDescribed(objects: seq<RemoteObject>, index: UsageMap, p: Params, plan: Plan, c: Eviction)
    requires IsPlan(objects, index, p, plan) && c in plan.evictions
    ensures var l := Managed(objects);
      && (forall o :: o in c.objects <==> LastListed(l, Pack, c.cacheKey, o) || LastListed(l, Manifest, c.cacheKey, o))
      && (c.reason.Orphan? <==> !Paired(l, c.cacheKey))
      && c.hits == Hits(index, c.cacheKey)
      && UsedLast(c.objects, index, c.cacheKey, c.lastAccessed)
  {
    var l := Managed(objects);
    EvictionIsOldGroup(objects, index, p, plan, c);
    GroupHolds(l, c.cacheKey);
    CandidateUse(c.cacheKey, Grouped(l)[c.cacheKey], index, p.now, c.lastAccessed);
    MembersListedLast(l, c.cacheKey);
  }

  lemma MembersListedLast(l: seq<RemoteObject>, k: string)
    requires k in Grouped(l)
    ensures forall o :: o in Members(Grouped(l)[k]) <==> LastListed(l, Pack, k, o) || LastListed(l, Manifest, k, o)
  {
    var g := Grouped(l)[k];
    forall o ensures o in Members(g) <==> LastListed(l, Pack, k, o) || LastListed(l, Manifest, k, o) {
      GroupHoldsLast(l, k, o);
      assert o in Members(g) <==> g.pack == Some(o) || g.manifest == Some(o);
    }
  }
}
