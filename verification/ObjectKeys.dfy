/** Store object keys: `parse_object_key` and `key_without_prefix` of crates/rbs-store/src/planner.rs. */
module ObjectKeys {
  import opened Options

  datatype Kind = Pack | Manifest

  datatype ParsedKey = ParsedKey(kind: Kind, crateName: string, cacheKey: string)

  const TOUCH_TMP_SUFFIX := ".touch-tmp"

  predicate EndsWith(s: string, suffix: string) {
    |suffix| <= |s| && s[|s| - |suffix|..] == suffix
  }

  // ------------------------------------------------------------------------------------------
  // Splitting at a separator

  /** The pieces between the separators, as `str::split` yields them. */
  function Split(s: string, c: char): (parts: seq<string>)
    ensures parts != []
  {
    if s == [] then [[]]
    else
      var rest := Split(s[1..], c);
      if s[0] == c then [[]] + rest else [[s[0]] + rest[0]] + rest[1..]
  }

  lemma {:induction false} SplitAtSeparator(a: string, b: string, c: char)
    ensures Split(a + [c] + b, c) == Split(a, c) + Split(b, c)
  {
    var s := a + [c] + b;
    if a == [] {
      assert s[1..] == b;
    } else {
      SplitAtSeparator(a[1..], b, c);
      assert s[1..] == a[1..] + [c] + b;
      PrependPiece(a[0], Split(a[1..], c), Split(b, c));
    }
  }

  lemma PrependPiece(x: char, p: seq<string>, q: seq<string>)
    requires p != []
    ensures [[]] + (p + q) == [[]] + p + q
    ensures [[x] + (p + q)[0]] + (p + q)[1..] == [[x] + p[0]] + p[1..] + q
  {
    assert (p + q)[1..] == p[1..] + q;
  }

  lemma {:induction false} SplitPlain(s: string, c: char)
    requires c !in s
    ensures Split(s, c) == [s]
  {
    if s != [] {
      SplitPlain(s[1..], c);
      assert s == [s[0]] + s[1..];
    }
  }

  function Join(parts: seq<string>, c: char): string
    requires parts != []
  {
    if |parts| == 1 then parts[0] else parts[0] + [c] + Join(parts[1..], c)
  }

  lemma {:induction false} SplitParts(s: string, c: char)
    ensures Join(Split(s, c), c) == s
    ensures forall i :: 0 <= i < |Split(s, c)| ==> c !in Split(s, c)[i]
  {
    if s != [] {
      var rest := Split(s[1..], c);
      SplitParts(s[1..], c);
      assert s == [s[0]] + s[1..];
      if s[0] == c {
        assert ([[]] + rest)[1..] == rest;
      } else {
        assert ([[s[0]] + rest[0]] + rest[1..])[1..] == rest[1..];
      }
    }
  }

  // ------------------------------------------------------------------------------------------
  // Parsing

  function Dir(kind: Kind): string {
    match kind case Pack => "packs" case Manifest => "manifests"
  }

  function Extension(kind: Kind): string {
    match kind case Pack => ".tar.zst" case Manifest => ".json"
  }

  predicate IsHex(c: char) {
    '0' <= c <= '9' || 'a' <= c <= 'f'
  }

  predicate IsCacheKey(s: string) {
    |s| == 64 && forall i :: 0 <= i < |s| ==> IsHex(s[i])
  }

  function ParseFile(kind: Kind, crateName: string, file: string): Option<ParsedKey> {
    var ext := Extension(kind);
    if !EndsWith(file, ext) then None
    else
      var stem := file[..|file| - |ext|];
      if IsCacheKey(stem) then Some(ParsedKey(kind, crateName, stem)) else None
  }

  function ParseRelative(rel: string): Option<ParsedKey> {
    var parts := Split(rel, '/');
    if |parts| != 4 || parts[0] != "v3" || parts[2] == "" then None
    else if parts[1] == "packs" then ParseFile(Pack, parts[2], parts[3])
    else if parts[1] == "manifests" then ParseFile(Manifest, parts[2], parts[3])
    else None
  }

  function StripPrefix(prefix: string, key: string): Option<string> {
    if prefix == "" then Some(key)
    else if prefix + "/" <= key then Some(key[|prefix| + 1..])
    else None
  }

  function ParseObjectKey(prefix: string, key: string): Option<ParsedKey> {
    match StripPrefix(prefix, key)
    case None => None
    case Some(rel) => ParseRelative(rel)
  }

  predicate WellFormed(p: ParsedKey) {
    p.crateName != "" && '/' !in p.crateName && IsCacheKey(p.cacheKey)
  }

  function RenderRelative(p: ParsedKey): string {
    "v3" + ['/'] + (Dir(p.kind) + ['/'] + (p.crateName + ['/'] + (p.cacheKey + Extension(p.kind))))
  }

  /** What stands before the layout in the keys of a store with this prefix. */
  function Lead(prefix: string): string {
    if prefix == "" then "" else prefix + "/"
  }

  function Render(prefix: string, p: ParsedKey): string {
    Lead(prefix) + RenderRelative(p)
  }

  lemma RenderedParts(p: ParsedKey)
    requires WellFormed(p)
    ensures Split(RenderRelative(p), '/') == ["v3", Dir(p.kind), p.crateName, p.cacheKey + Extension(p.kind)]
  {
    var file := p.cacheKey + Extension(p.kind);
    assert '/' !in file;
    SplitPlain("v3", '/');
    SplitPlain(Dir(p.kind), '/');
    SplitPlain(p.crateName, '/');
    SplitPlain(file, '/');
    SplitAtSeparator(p.crateName, file, '/');
    SplitAtSeparator(Dir(p.kind), p.crateName + ['/'] + file, '/');
    SplitAtSeparator("v3", Dir(p.kind) + ['/'] + (p.crateName + ['/'] + file), '/');
  }

  lemma JoinFour(parts: seq<string>)
    requires |parts| == 4
    ensures Join(parts, '/') == parts[0] + ['/'] + (parts[1] + ['/'] + (parts[2] + ['/'] + parts[3]))
  {
    assert parts[1..][1..] == parts[2..] && parts[2..][1..] == parts[3..];
    assert Join(parts[3..], '/') == parts[3];
    assert Join(parts[2..], '/') == parts[2] + ['/'] + Join(parts[3..], '/');
    assert Join(parts[1..], '/') == parts[1] + ['/'] + Join(parts[2..], '/');
  }

  lemma ParseRelativeExact(rel: string, p: ParsedKey)
    ensures ParseRelative(rel) == Some(p) <==> WellFormed(p) && rel == RenderRelative(p)
  {
    if WellFormed(p) && rel == RenderRelative(p) {
      RenderedParts(p);
      var file := p.cacheKey + Extension(p.kind);
      assert file[..|file| - |Extension(p.kind)|] == p.cacheKey;
    }
    if ParseRelative(rel) == Some(p) {
      var parts := Split(rel, '/');
      SplitParts(rel, '/');
      JoinFour(parts);
      assert parts[3] == p.cacheKey + Extension(p.kind);
    }
  }

  /** The parser accepts exactly the rendered keys of the prefix, so it is injective. */
  lemma ParseExact(prefix: string, key: string, p: ParsedKey)
    ensures ParseObjectKey(prefix, key) == Some(p) <==> WellFormed(p) && key == Render(prefix, p)
  {
    if prefix == "" {
      ParseRelativeExact(key, p);
    } else if prefix + "/" <= key {
      var rel := key[|prefix| + 1..];
      assert key == prefix + "/" + rel;
      ParseRelativeExact(rel, p);
    }
  }

  /** The layout spelled out: a parsed key is `v3/packs/<crate>/<64 hex digits>.tar.zst` or
      `v3/manifests/<crate>/<64 hex digits>.json` behind the prefix. */
  lemma KeySpelled(prefix: string, key: string, p: ParsedKey)
    ensures ParseObjectKey(prefix, key) == Some(p) <==>
      && p.crateName != [] && '/' !in p.crateName
      && |p.cacheKey| == 64 && (forall c :: c in p.cacheKey ==> '0' <= c <= '9' || 'a' <= c <= 'f')
      && key == (if prefix == "" then "" else prefix + "/") +
        match p.kind
        case Pack => "v3/packs/" + p.crateName + "/" + p.cacheKey + ".tar.zst"
        case Manifest => "v3/manifests/" + p.crateName + "/" + p.cacheKey + ".json"
  {
    ParseExact(prefix, key, p);
    HexSpelled(p.cacheKey);
    RenderSpelled(p);
  }

  lemma HexSpelled(s: string)
    ensures IsCacheKey(s) <==> |s| == 64 && forall c :: c in s ==> '0' <= c <= '9' || 'a' <= c <= 'f'
  {
    if |s| == 64 && forall c :: c in s ==> '0' <= c <= '9' || 'a' <= c <= 'f' {
      forall i | 0 <= i < |s| ensures IsHex(s[i]) {
        assert s[i] in s;
      }
    }
  }

  lemma RenderSpelled(p: ParsedKey)
    ensures RenderRelative(p) ==
      match p.kind
      case Pack => "v3/packs/" + p.crateName + "/" + p.cacheKey + ".tar.zst"
      case Manifest => "v3/manifests/" + p.crateName + "/" + p.cacheKey + ".json"
  {
    assert "v3" + ['/'] + ("packs" + ['/']) == "v3/packs/";
    assert "v3" + ['/'] + ("manifests" + ['/']) == "v3/manifests/";
  }

  lemma ParseInjective(prefix: string, a: string, b: string)
    requires ParseObjectKey(prefix, a).Some? && ParseObjectKey(prefix, a) == ParseObjectKey(prefix, b)
    ensures a == b
  {
    ParseExact(prefix, a, ParseObjectKey(prefix, a).value);
    ParseExact(prefix, b, ParseObjectKey(prefix, a).value);
  }

  // ------------------------------------------------------------------------------------------
  // The planner's prefix-free route

  predicate MarkerAt(s: string, i: nat) {
    i + 3 <= |s| && s[i] == 'v' && s[i + 1] == '3' && s[i + 2] == '/'
  }

  /** Position of the first `v3/`, or the length. */
  function FindMarker(s: string): (pos: nat)
    ensures pos <= |s|
    ensures pos < |s| ==> MarkerAt(s, pos)
    ensures forall i :: 0 <= i < pos ==> !MarkerAt(s, i)
  {
    if s == [] || MarkerAt(s, 0) then 0
    else
      var pos := 1 + FindMarker(s[1..]);
      assert forall i :: 0 < i < pos ==> (MarkerAt(s, i) <==> MarkerAt(s[1..], i - 1));
      assert pos < |s| ==> MarkerAt(s[1..], pos - 1);
      pos
  }

  function KeyWithoutPrefix(key: string): string {
    var pos := FindMarker(key);
    if pos < |key| && (pos == 0 || key[pos - 1] == '/') then key[pos..] else key
  }

  ghost predicate HasMarker(s: string) {
    exists i :: MarkerAt(s, i)
  }

  /** The route the planner takes. */
  function PlannerParse(key: string): Option<ParsedKey> {
    ParseObjectKey("", KeyWithoutPrefix(key))
  }

  ghost predicate RoutesAgree(prefix: string, key: string) {
    PlannerParse(key) == ParseObjectKey(prefix, key)
  }

  /** Something the layout can follow: nothing, or whole path components. */
  predicate IsHead(head: string) {
    head == "" || head[|head| - 1] == '/'
  }

  /** `key` is the layout's key for `p` behind `head`. */
  predicate LaidOut(key: string, head: string, p: ParsedKey) {
    IsHead(head) && WellFormed(p) && key == head + RenderRelative(p)
  }

  lemma RelativeMarked(p: ParsedKey)
    ensures MarkerAt(RenderRelative(p), 0)
  {
  }

  /** No marker straddles the end of a head. */
  lemma MarkerInHead(head: string, rest: string, i: nat)
    requires IsHead(head) && i < |head|
    ensures MarkerAt(head + rest, i) <==> MarkerAt(head, i)
  {
    assert (head + rest)[|head| - 1] == '/';
  }

  lemma MarkerFound(s: string, pos: nat)
    requires MarkerAt(s, pos) && forall i :: 0 <= i < pos ==> !MarkerAt(s, i)
    ensures FindMarker(s) == pos
  {
    assert FindMarker(s) < pos ==> MarkerAt(s, FindMarker(s));
  }

  lemma HeadMarkers(head: string, rest: string)
    requires IsHead(head) && MarkerAt(rest, 0)
    ensures MarkerAt(head + rest, |head|)
    ensures forall i: nat :: i < |head| ==> (MarkerAt(head + rest, i) <==> MarkerAt(head, i))
  {
    var s := head + rest;
    assert s[|head|..] == rest;
    forall i: nat | i < |head| ensures MarkerAt(s, i) <==> MarkerAt(head, i) {
      MarkerInHead(head, rest, i);
    }
  }

  lemma FirstMarker(head: string, rest: string, s: string)
    requires IsHead(head) && MarkerAt(rest, 0) && s == head + rest
    ensures !HasMarker(head) ==> FindMarker(s) == |head|
    ensures HasMarker(head) ==> FindMarker(s) < |head|
  {
    HeadMarkers(head, rest);
    if i: nat :| MarkerAt(head, i) {
      assert i < |head| && MarkerAt(s, i);
    } else {
      MarkerFound(s, |head|);
    }
  }

  lemma CleanHeadParses(key: string, head: string, p: ParsedKey)
    requires LaidOut(key, head, p) && !HasMarker(head)
    ensures PlannerParse(key) == Some(p)
  {
    RelativeMarked(p);
    FirstMarker(head, RenderRelative(p), key);
    assert key[|head|..] == RenderRelative(p);
    ParseExact("", RenderRelative(p), p);
  }

  lemma NoMarkerBefore(key: string, pos: nat)
    requires pos == FindMarker(key)
    ensures !HasMarker(key[..pos])
  {
    assert forall i: nat :: MarkerAt(key[..pos], i) ==> i < pos && MarkerAt(key, i);
  }

  lemma ParsedHead(key: string, p: ParsedKey) returns (head: string)
    requires PlannerParse(key) == Some(p)
    ensures LaidOut(key, head, p) && !HasMarker(head)
  {
    var pos := FindMarker(key);
    ParseExact("", KeyWithoutPrefix(key), p);
    if pos < |key| && (pos == 0 || key[pos - 1] == '/') {
      NoMarkerBefore(key, pos);
      head := key[..pos];
      SplitKey(key, pos, p);
    } else {
      head := "";
    }
  }

  lemma SplitKey(key: string, pos: nat, p: ParsedKey)
    requires pos <= |key| && (pos == 0 || key[pos - 1] == '/') && key[pos..] == RenderRelative(p) && WellFormed(p)
    ensures LaidOut(key, key[..pos], p)
  {
    assert key == key[..pos] + key[pos..];
  }

  /** The planner takes a key for `p` exactly when the layout's key for `p` stands behind path components without a
      marker - whatever they are, and whether or not they are the store's prefix. */
  lemma PlannerParseExact(key: string, p: ParsedKey)
    ensures PlannerParse(key) == Some(p) <==> exists head :: LaidOut(key, head, p) && !HasMarker(head)
  {
    if PlannerParse(key) == Some(p) {
      var head := ParsedHead(key, p);
    }
    if head :| LaidOut(key, head, p) && !HasMarker(head) {
      CleanHeadParses(key, head, p);
    }
  }

  // ------------------------------------------------------------------------------------------
  // Where the planner and the prefix-aware parser agree

  lemma LaidOutParts(key: string, head: string, p: ParsedKey)
    requires LaidOut(key, head, p)
    ensures var rel := ["v3", Dir(p.kind), p.crateName, p.cacheKey + Extension(p.kind)];
      Split(key, '/') == if head == "" then rel else Split(head[..|head| - 1], '/') + rel
  {
    RenderedParts(p);
    if head == "" {
      assert key == RenderRelative(p);
    } else {
      var front := head[..|head| - 1];
      assert key == front + ['/'] + RenderRelative(p);
      SplitAtSeparator(front, RenderRelative(p), '/');
    }
  }

  lemma RelativeDetermines(p: ParsedKey, q: ParsedKey)
    requires WellFormed(p) && WellFormed(q) && Dir(p.kind) == Dir(q.kind) && p.crateName == q.crateName
    requires p.cacheKey + Extension(p.kind) == q.cacheKey + Extension(q.kind)
    ensures p == q
  {
    assert Dir(Pack)[0] == 'p' && Dir(Manifest)[0] == 'm';
    assert (p.cacheKey + Extension(p.kind))[..64] == p.cacheKey;
    assert (q.cacheKey + Extension(q.kind))[..64] == q.cacheKey;
  }

  /** A key is laid out in one way at most: its last four components decide. */
  lemma LaidOutOnce(key: string, head: string, p: ParsedKey, head': string, q: ParsedKey)
    requires LaidOut(key, head, p) && LaidOut(key, head', q)
    ensures head == head' && p == q
  {
    var parts := Split(key, '/');
    LaidOutParts(key, head, p);
    LaidOutParts(key, head', q);
    var last := parts[|parts| - 4..];
    assert last == ["v3", Dir(p.kind), p.crateName, p.cacheKey + Extension(p.kind)];
    assert last == ["v3", Dir(q.kind), q.crateName, q.cacheKey + Extension(q.kind)];
    assert last[1] == Dir(p.kind) == Dir(q.kind) && last[2] == p.crateName == q.crateName;
    assert last[3] == p.cacheKey + Extension(p.kind) == q.cacheKey + Extension(q.kind);
    RelativeDetermines(p, q);
    assert key[..|key| - |RenderRelative(p)|] == head == head';
  }

  lemma StoreKeyLaidOut(prefix: string, key: string, p: ParsedKey)
    ensures ParseObjectKey(prefix, key) == Some(p) <==> LaidOut(key, Lead(prefix), p)
  {
    ParseExact(prefix, key, p);
  }

  /** A key laid out behind a head: the parser takes it when the head is the store's, the planner when the head
      has no marker. */
  lemma RoutesOfLaidOut(prefix: string, key: string, head: string, p: ParsedKey)
    requires LaidOut(key, head, p)
    ensures ParseObjectKey(prefix, key) == if head == Lead(prefix) then Some(p) else None
    ensures PlannerParse(key) == if HasMarker(head) then None else Some(p)
  {
    var q, r := ParseObjectKey(prefix, key), PlannerParse(key);
    StoreKeyLaidOut(prefix, key, p);
    if q.Some? {
      StoreKeyLaidOut(prefix, key, q.value);
      LaidOutOnce(key, head, p, Lead(prefix), q.value);
    }
    if !HasMarker(head) {
      CleanHeadParses(key, head, p);
    }
    if r.Some? {
      var head' := ParsedHead(key, r.value);
      LaidOutOnce(key, head, p, head', r.value);
    }
  }

  /** The key is not in the layout at all, or its head is the store's own exactly when it has no marker. */
  ghost predicate Unambiguous(prefix: string, key: string) {
    forall head, p :: LaidOut(key, head, p) ==> (head == Lead(prefix) <==> !HasMarker(head))
  }

  /** Planner and prefix-aware parser agree on a key exactly when it is unambiguous - for every key and every
      prefix, the empty one included. */
  lemma RoutesAgreeExactly(prefix: string, key: string)
    ensures RoutesAgree(prefix, key) <==> Unambiguous(prefix, key)
  {
    if head, p :| LaidOut(key, head, p) {
      RoutesOfLaidOut(prefix, key, head, p);
      forall head', q | LaidOut(key, head', q) ensures head' == head && q == p {
        LaidOutOnce(key, head, p, head', q);
      }
    } else {
      var q, r := ParseObjectKey(prefix, key), PlannerParse(key);
      if q.Some? {
        StoreKeyLaidOut(prefix, key, q.value);
      }
      if r.Some? {
        var head' := ParsedHead(key, r.value);
      }
    }
  }

  /** On the keys of the store itself - `v3/` right behind the prefix - the routes agree exactly when the prefix and
      its separator hold no marker. */
  lemma StoreKeysAgreeExactly(prefix: string)
    ensures !HasMarker(Lead(prefix)) <==> forall rest :: RoutesAgree(prefix, Lead(prefix) + ("v3/" + rest))
  {
    if !HasMarker(Lead(prefix)) {
      forall rest ensures RoutesAgree(prefix, Lead(prefix) + ("v3/" + rest)) {
        CleanPrefixAgrees(prefix, rest);
      }
    } else {
      var p := Sample();
      MarkedPrefixDisagrees(prefix, p);
      var rest := RenderRelative(p)[3..];
      RelativeMarked(p);
      assert RenderRelative(p) == "v3/" + rest;
    }
  }

  lemma CleanPrefixAgrees(prefix: string, rest: string)
    requires !HasMarker(Lead(prefix))
    ensures RoutesAgree(prefix, Lead(prefix) + ("v3/" + rest))
  {
    var lead, rel := Lead(prefix), "v3/" + rest;
    FirstMarker(lead, rel, lead + rel);
    assert (lead + rel)[|lead|..] == rel;
  }

  lemma MarkedPrefixDisagrees(prefix: string, p: ParsedKey)
    requires HasMarker(Lead(prefix)) && WellFormed(p)
    ensures !RoutesAgree(prefix, Render(prefix, p))
  {
    RoutesOfLaidOut(prefix, Render(prefix, p), Lead(prefix), p);
  }

  /** A store nested in this one, or beside it in a bucket listed whole, is taken for this one: the parser leaves its
      keys alone and the planner does not, even though neither head holds a marker. */
  lemma NestedStoreTaken(prefix: string, inner: string, p: ParsedKey)
    requires WellFormed(p) && inner != "" && !HasMarker(Lead(prefix) + inner + "/")
    ensures var key := Lead(prefix) + inner + "/" + RenderRelative(p);
      ParseObjectKey(prefix, key) == None && PlannerParse(key) == Some(p)
  {
    RoutesOfLaidOut(prefix, Lead(prefix) + inner + "/" + RenderRelative(p), Lead(prefix) + inner + "/", p);
  }

  function Sample(): (p: ParsedKey)
    ensures WellFormed(p)
  {
    ParsedKey(Pack, "c", seq(64, _ => '0'))
  }

  /** `a/b/v3/packs/c/<64 digits>.tar.zst` */
  function Nested(): string {
    "a/b/" + RenderRelative(Sample())
  }

  lemma NoMarkerWithoutV(s: string)
    requires 'v' !in s
    ensures !HasMarker(s)
  {
  }

  /** A prefix without a marker is not enough. */
  lemma CleanPrefixNotEnough()
    ensures !HasMarker(Lead("a")) && ParseObjectKey("a", Nested()) == None && PlannerParse(Nested()) == Some(Sample())
  {
    assert Lead("a") == "a/" && Lead("a") + "b" + "/" == "a/b/";
    NoMarkerWithoutV("a/");
    NoMarkerWithoutV("a/b/");
    NestedStoreTaken("a", "b", Sample());
  }

  lemma NestedHeadClean(lead: string)
    requires IsHead(lead) && !HasMarker(lead)
    ensures !HasMarker(lead + "b" + "/")
  {
    var head := lead + "b" + "/";
    assert head == lead + "b/";
    forall i: nat ensures MarkerAt(head, i) ==> MarkerAt(lead, i) {
      if i < |lead| {
        MarkerInHead(lead, "b/", i);
      }
    }
  }

  /** So no prefix makes the routes agree on every key listed under it. */
  lemma NoPrefixAgreesThroughout(prefix: string)
    ensures exists key :: Lead(prefix) <= key && !RoutesAgree(prefix, key)
  {
    var p := Sample();
    if HasMarker(Lead(prefix)) {
      MarkedPrefixDisagrees(prefix, p);
      assert Lead(prefix) <= Render(prefix, p);
    } else {
      NestedHeadClean(Lead(prefix));
      NestedStoreTaken(prefix, "b", p);
      var key := Lead(prefix) + "b" + "/" + RenderRelative(p);
      assert Lead(prefix) <= key && !RoutesAgree(prefix, key);
    }
  }
}
