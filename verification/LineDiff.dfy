/** `line_diff` of crates/rbs-setup/src/setup.rs: a longest-common-subsequence table filled from the end, and
    a walk that prints each line with ' ', '-' or '+'. */
module LineDiff {
  import opened Segments
  import opened TextLines

  // ------------------------------------------------------------------------------------------
  // What a diff is

  /** `c` is obtained from `s` by leaving lines out. */
  predicate Subsequence(c: seq<string>, s: seq<string>) {
    c == [] || (s != [] && ((c[0] == s[0] && Subsequence(c[1..], s[1..])) || Subsequence(c, s[1..])))
  }

  /** The lines behind the entries tagged ' ' or `tag`, in order. */
  function Side(entries: seq<string>, tag: char): seq<string> {
    if entries == [] then []
    else (if IsTagged(entries[0], ' ') ||
        IsTagged(entries[0], tag) then [entries[0][1..]] else []) + Side(entries[1..], tag)
  }

  predicate IsTagged(entry: string, tag: char) {
    entry != [] && entry[0] == tag
  }

  /** Text `out` is a minimal diff between the two lists of lines. */
  ghost predicate IsMinimalDiff(out: string, a: seq<string>, b: seq<string>) {
    var entries := Pieces(out, '\n');
    && Tail(out, '\n') == []
    && (forall i :: 0 <= i < |entries| ==>
          IsTagged(entries[i], ' ') || IsTagged(entries[i], '-') || IsTagged(entries[i], '+'))
    && Side(entries, '-') == a
    && Side(entries, '+') == b
    && Subsequence(Side(entries, ' '), a)
    && Subsequence(Side(entries, ' '), b)
    && (forall c :: Subsequence(c, a) && Subsequence(c, b) ==> |c| <= |Side(entries, ' ')|)
  }

  // ------------------------------------------------------------------------------------------
  // The recurrence behind the table, and the walk

  function Max(x: nat, y: nat): nat {
    if x >= y then x else y
  }

  function Lcs(a: seq<string>, b: seq<string>): nat
    decreases |a| + |b|
  {
    if a == [] || b == [] then 0
    else if a[0] == b[0] then Lcs(a[1..], b[1..]) + 1
    else Max(Lcs(a[1..], b), Lcs(a, b[1..]))
  }

  function Diff(a: seq<string>, b: seq<string>): seq<string>
    decreases |a| + |b|
  {
    if a == [] && b == [] then []
    else if b == [] then ["-" + a[0]] + Diff(a[1..], b)
    else if a == [] then ["+" + b[0]] + Diff(a, b[1..])
    else if a[0] == b[0] then [" " + a[0]] + Diff(a[1..], b[1..])
    else if Lcs(a[1..], b) >= Lcs(a, b[1..]) then ["-" + a[0]] + Diff(a[1..], b)
    else ["+" + b[0]] + Diff(a, b[1..])
  }

  lemma {:induction false} ShorterSubsequence(c: seq<string>, s: seq<string>)
    requires Subsequence(c, s) && c != []
    ensures Subsequence(c[1..], s[1..])
    decreases s
  {
    if !(c[0] == s[0] && Subsequence(c[1..], s[1..])) {
      SubsequenceTail(c, s[1..]);
    }
  }

  lemma {:induction false} SubsequenceTail(c: seq<string>, s: seq<string>)
    requires Subsequence(c, s) && c != []
    ensures Subsequence(c[1..], s)
  {
    if Subsequence(c, s[1..]) {
      SubsequenceTail(c, s[1..]);
    }
  }

  /** No common subsequence is longer than the table says. */
  lemma {:induction false} LcsIsUpperBound(c: seq<string>, a: seq<string>, b: seq<string>)
    requires Subsequence(c, a) && Subsequence(c, b)
    ensures |c| <= Lcs(a, b)
    decreases |a| + |b|
  {
    if c != [] {
      if a[0] == b[0] {
        ShorterSubsequence(c, a);
        ShorterSubsequence(c, b);
        LcsIsUpperBound(c[1..], a[1..], b[1..]);
      } else if c[0] != a[0] {
        LcsIsUpperBound(c, a[1..], b);
      } else {
        LcsIsUpperBound(c, a, b[1..]);
      }
    }
  }

  lemma SideStep(entry: string, rest: seq<string>, tag: char)
    ensures Side([entry] + rest, tag) ==
      (if IsTagged(entry, ' ') || IsTagged(entry, tag) then [entry[1..]] else []) + Side(rest, tag)
  {
    assert ([entry] + rest)[1..] == rest;
  }

  /** One printed entry: which sides it appears on. */
  lemma EntryStep(tag: char, line: string, rest: seq<string>)
    requires tag == ' ' || tag == '-' || tag == '+'
    ensures var es := [[tag] + line] + rest;
      && Side(es, '-') == (if tag == '+' then [] else [line]) + Side(rest, '-')
      && Side(es, '+') == (if tag == '-' then [] else [line]) + Side(rest, '+')
      && Side(es, ' ') == (if tag == ' ' then [line] else []) + Side(rest, ' ')
  {
    var entry := [tag] + line;
    assert entry[1..] == line;
    SideStep(entry, rest, '-');
    SideStep(entry, rest, '+');
    SideStep(entry, rest, ' ');
  }

  lemma SubsequenceSkip(c: seq<string>, s: seq<string>)
    requires s != [] && Subsequence(c, s[1..])
    ensures Subsequence(c, s)
  {
  }

  lemma SubsequenceMatch(c: seq<string>, s: seq<string>)
    requires s != [] && Subsequence(c, s[1..])
    ensures Subsequence([s[0]] + c, s)
  {
    assert ([s[0]] + c)[1..] == c;
  }

  /** The entries spell both texts, and keep `n` lines common to both. */
  ghost predicate Spells(entries: seq<string>, a: seq<string>, b: seq<string>, n: nat) {
    && Side(entries, '-') == a && Side(entries, '+') == b
    && Subsequence(Side(entries, ' '), a) && Subsequence(Side(entries, ' '), b)
    && |Side(entries, ' ')| == n
  }

  lemma SpellOld(rest: seq<string>, a: seq<string>, b: seq<string>, n: nat)
    requires a != [] && Spells(rest, a[1..], b, n)
    ensures Spells(["-" + a[0]] + rest, a, b, n)
  {
    EntryStep('-', a[0], rest);
    SubsequenceSkip(Side(rest, ' '), a);
    assert Side(["-" + a[0]] + rest, ' ') == Side(rest, ' ');
  }

  lemma SpellNew(rest: seq<string>, a: seq<string>, b: seq<string>, n: nat)
    requires b != [] && Spells(rest, a, b[1..], n)
    ensures Spells(["+" + b[0]] + rest, a, b, n)
  {
    EntryStep('+', b[0], rest);
    SubsequenceSkip(Side(rest, ' '), b);
    assert Side(["+" + b[0]] + rest, ' ') == Side(rest, ' ');
  }

  lemma SpellBoth(rest: seq<string>, a: seq<string>, b: seq<string>, n: nat)
    requires a != [] && b != [] && a[0] == b[0] && Spells(rest, a[1..], b[1..], n)
    ensures Spells([" " + a[0]] + rest, a, b, n + 1)
  {
    EntryStep(' ', a[0], rest);
    SubsequenceMatch(Side(rest, ' '), a);
    SubsequenceMatch(Side(rest, ' '), b);
  }

  lemma {:induction false} DiffSpells(a: seq<string>, b: seq<string>)
    ensures Spells(Diff(a, b), a, b, Lcs(a, b))
    decreases |a| + |b|
  {
    if a != [] && (b == [] || (a[0] != b[0] && Lcs(a[1..], b) >= Lcs(a, b[1..]))) {
      DiffSpells(a[1..], b);
      SpellOld(Diff(a[1..], b), a, b, Lcs(a, b));
    } else if b != [] && (a == [] || a[0] != b[0]) {
      DiffSpells(a, b[1..]);
      SpellNew(Diff(a, b[1..]), a, b, Lcs(a, b));
    } else if a != [] {
      DiffSpells(a[1..], b[1..]);
      SpellBoth(Diff(a[1..], b[1..]), a, b, Lcs(a[1..], b[1..]));
    }
  }

  /** One more line on the new side never makes the longest common part shorter. */
  lemma LcsGrows(a: seq<string>, b: seq<string>)
    requires b != []
    ensures Lcs(a, b[1..]) <= Lcs(a, b)
  {
    DiffSpells(a, b[1..]);
    var c := Side(Diff(a, b[1..]), ' ');
    SubsequenceSkip(c, b);
    LcsIsUpperBound(c, a, b);
  }

  /** After an added line the walk does not turn back to removing. */
  lemma NoRemovalAfter(a: seq<string>, b: seq<string>)
    requires a != [] && b != [] && a[0] != b[0] && Lcs(a[1..], b) < Lcs(a, b[1..])
    ensures Diff(a, b[1..]) != [] && !IsTagged(Diff(a, b[1..])[0], '-')
  {
    LcsGrows(a[1..], b);
  }

  /** Within a change the removed lines come first: no '-' entry follows a '+' entry directly. */
  ghost predicate RemovedFirst(entries: seq<string>) {
    forall k :: 0 <= k < |entries| - 1 && IsTagged(entries[k], '+') ==> !IsTagged(entries[k + 1], '-')
  }

  lemma RemovedFirstStep(entry: string, rest: seq<string>)
    requires RemovedFirst(rest) && (IsTagged(entry, '+') && rest != [] ==> !IsTagged(rest[0], '-'))
    ensures RemovedFirst([entry] + rest)
  {
    var entries := [entry] + rest;
    forall k | 0 <= k < |entries| - 1 && IsTagged(entries[k], '+') ensures !IsTagged(entries[k + 1], '-') {
      assert k > 0 ==> entries[k] == rest[k - 1];
      assert entries[k + 1] == rest[k];
    }
  }

  lemma {:induction false} DiffRemovesFirst(a: seq<string>, b: seq<string>)
    ensures RemovedFirst(Diff(a, b))
    decreases |a| + |b|
  {
    if a != [] && (b == [] || (a[0] != b[0] && Lcs(a[1..], b) >= Lcs(a, b[1..]))) {
      DiffRemovesFirst(a[1..], b);
      RemovedFirstStep("-" + a[0], Diff(a[1..], b));
    } else if b != [] && (a == [] || a[0] != b[0]) {
      DiffRemovesFirst(a, b[1..]);
      if a != [] {
        NoRemovalAfter(a, b);
      }
      RemovedFirstStep("+" + b[0], Diff(a, b[1..]));
    } else if a != [] {
      DiffRemovesFirst(a[1..], b[1..]);
      RemovedFirstStep(" " + a[0], Diff(a[1..], b[1..]));
    }
  }

  ghost predicate Clean(lines: seq<string>) {
    forall i :: 0 <= i < |lines| ==> '\n' !in lines[i]
  }

  lemma {:induction false} DiffIsClean(a: seq<string>, b: seq<string>)
    requires Clean(a) && Clean(b)
    ensures Clean(Diff(a, b))
    ensures forall i :: 0 <= i < |Diff(a, b)| ==>
      IsTagged(Diff(a, b)[i], ' ') || IsTagged(Diff(a, b)[i], '-') || IsTagged(Diff(a, b)[i], '+')
    decreases |a| + |b|
  {
    if a != [] {
      DiffIsClean(a[1..], b);
    }
    if b != [] {
      DiffIsClean(a, b[1..]);
    }
    if a != [] && b != [] {
      DiffIsClean(a[1..], b[1..]);
    }
  }

  /** The printed walk is a minimal diff. */
  lemma DiffIsMinimal(a: seq<string>, b: seq<string>)
    requires Clean(a) && Clean(b)
    ensures IsMinimalDiff(Terminate(Diff(a, b), '\n'), a, b)
  {
    DiffIsClean(a, b);
    PiecesOfTerminated(Diff(a, b), '\n');
    DiffSpells(a, b);
    forall c | Subsequence(c, a) && Subsequence(c, b) ensures |c| <= Lcs(a, b) {
      LcsIsUpperBound(c, a, b);
    }
  }

  // ------------------------------------------------------------------------------------------
  // The loops

  ghost predicate Fits(lcs: array2<nat>, a: seq<string>, b: seq<string>) {
    lcs.Length0 == |a| + 1 && lcs.Length1 == |b| + 1
  }

  /** From column `from` on, row i holds the lengths for the lines from i on. */
  ghost predicate RowDone(lcs: array2<nat>, a: seq<string>, b: seq<string>, i: nat, from: nat)
    requires Fits(lcs, a, b) && i <= |a|
    reads lcs
  {
    forall j :: from <= j <= |b| ==> lcs[i, j] == Lcs(a[i..], b[j..])
  }

  method FillRow(lcs: array2<nat>, a: seq<string>, b: seq<string>, i: nat)
    requires Fits(lcs, a, b) && i < |a| && RowDone(lcs, a, b, i + 1, 0) && lcs[i, |b|] == 0
    modifies lcs
    ensures RowDone(lcs, a, b, i, 0)
    ensures forall k, j :: 0 <= k <= |a| && 0 <= j <= |b| && k != i ==> lcs[k, j] == old(lcs[k, j])
  {
    var j := |b|;
    while j > 0
      invariant 0 <= j <= |b|
      invariant RowDone(lcs, a, b, i + 1, 0) && RowDone(lcs, a, b, i, j)
      invariant forall k, j :: 0 <= k <= |a| && 0 <= j <= |b| && k != i ==> lcs[k, j] == old(lcs[k, j])
    {
      j := j - 1;
      CellStep(a, b, i, j);
      lcs[i, j] := if a[i] == b[j] then lcs[i + 1, j + 1] + 1 else Max(lcs[i + 1, j], lcs[i, j + 1]);
    }
  }

  ghost predicate RowsDone(lcs: array2<nat>, a: seq<string>, b: seq<string>, from: nat)
    requires Fits(lcs, a, b)
    reads lcs
  {
    forall i, j :: from <= i <= |a| && 0 <= j <= |b| ==> lcs[i, j] == Lcs(a[i..], b[j..])
  }

  method FillTable(a: seq<string>, b: seq<string>) returns (lcs: array2<nat>)
    ensures fresh(lcs) && Fits(lcs, a, b) && RowsDone(lcs, a, b, 0)
  {
    lcs := new nat[|a| + 1, |b| + 1]((_, _) => 0);
    var i := |a|;
    while i > 0
      invariant 0 <= i <= |a| && RowsDone(lcs, a, b, i)
      invariant forall k :: 0 <= k < i ==> lcs[k, |b|] == 0
    {
      i := i - 1;
      FillRow(lcs, a, b, i);
    }
  }

  lemma CellStep(a: seq<string>, b: seq<string>, i: nat, j: nat)
    requires i < |a| && j < |b|
    ensures Lcs(a[i..], b[j..]) ==
      if a[i] == b[j] then Lcs(a[i + 1..], b[j + 1..]) + 1 else Max(Lcs(a[i + 1..], b[j..]), Lcs(a[i..], b[j + 1..]))
  {
    assert a[i..][1..] == a[i + 1..] && b[j..][1..] == b[j + 1..];
  }

  /** Printing one entry moves it from the rest of the diff to the output. */
  lemma PrintStep(out: string, entry: string, rest: seq<string>)
    ensures out + Terminate([entry] + rest, '\n') == out + entry + "\n" + Terminate(rest, '\n')
  {
    assert ([entry] + rest)[1..] == rest;
  }

  ghost predicate Printing(out: string, a: seq<string>, b: seq<string>, i: nat, j: nat) {
    i <= |a| && j <= |b| && Terminate(Diff(a, b), '\n') == out + Terminate(Diff(a[i..], b[j..]), '\n')
  }

  lemma PrintBoth(out: string, a: seq<string>, b: seq<string>, i: nat, j: nat)
    requires Printing(out, a, b, i, j) && i < |a| && j < |b| && a[i] == b[j]
    ensures Printing(out + " " + a[i] + "\n", a, b, i + 1, j + 1)
  {
    assert a[i..][1..] == a[i + 1..] && b[j..][1..] == b[j + 1..];
    PrintStep(out, " " + a[i], Diff(a[i + 1..], b[j + 1..]));
    assert out + " " + a[i] + "\n" == out + (" " + a[i]) + "\n";
  }

  lemma PrintOld(out: string, a: seq<string>, b: seq<string>, i: nat, j: nat)
    requires Printing(out, a, b, i, j) && i < |a|
    requires j < |b| ==> a[i] != b[j] && Lcs(a[i + 1..], b[j..]) >= Lcs(a[i..], b[j + 1..])
    ensures Printing(out + "-" + a[i] + "\n", a, b, i + 1, j)
  {
    assert a[i..][1..] == a[i + 1..];
    assert j < |b| ==> b[j..][1..] == b[j + 1..];
    PrintStep(out, "-" + a[i], Diff(a[i + 1..], b[j..]));
    assert out + "-" + a[i] + "\n" == out + ("-" + a[i]) + "\n";
  }

  lemma PrintNew(out: string, a: seq<string>, b: seq<string>, i: nat, j: nat)
    requires Printing(out, a, b, i, j) && j < |b|
    requires i < |a| ==> a[i] != b[j] && Lcs(a[i + 1..], b[j..]) < Lcs(a[i..], b[j + 1..])
    ensures Printing(out + "+" + b[j] + "\n", a, b, i, j + 1)
  {
    assert b[j..][1..] == b[j + 1..];
    assert i < |a| ==> a[i..][1..] == a[i + 1..];
    PrintStep(out, "+" + b[j], Diff(a[i..], b[j + 1..]));
    assert out + "+" + b[j] + "\n" == out + ("+" + b[j]) + "\n";
  }

  lemma Printed(out: string, a: seq<string>, b: seq<string>)
    requires Printing(out, a, b, |a|, |b|)
    ensures out == Terminate(Diff(a, b), '\n')
  {
    assert a[|a|..] == [] && b[|b|..] == [];
    assert Diff([], []) == [];
  }

  lemma PrintStart(a: seq<string>, b: seq<string>)
    ensures Printing("", a, b, 0, 0)
  {
    assert a[0..] == a && b[0..] == b;
  }

  /** Reading the choice of direction off the table. */
  lemma TableChoice(lcs: array2<nat>, a: seq<string>, b: seq<string>, i: nat, j: nat)
    requires Fits(lcs, a, b) && RowsDone(lcs, a, b, 0) && i < |a| && j < |b|
    ensures lcs[i + 1, j] >= lcs[i, j + 1] <==> Lcs(a[i + 1..], b[j..]) >= Lcs(a[i..], b[j + 1..])
  {
  }

  method Walk(a: seq<string>, b: seq<string>, lcs: array2<nat>) returns (out: string, i: nat, j: nat)
    requires Fits(lcs, a, b) && RowsDone(lcs, a, b, 0)
    ensures Printing(out, a, b, i, j) && (i == |a| || j == |b|)
  {
    out, i, j := "", 0, 0;
    PrintStart(a, b);
    while i < |a| && j < |b|
      invariant Printing(out, a, b, i, j)
      decreases |a| - i + |b| - j
    {
      TableChoice(lcs, a, b, i, j);
      if a[i] == b[j] {
        PrintBoth(out, a, b, i, j);
        out := out + " " + a[i] + "\n";
        i, j := i + 1, j + 1;
      } else if lcs[i + 1, j] >= lcs[i, j + 1] {
        PrintOld(out, a, b, i, j);
        out := out + "-" + a[i] + "\n";
        i := i + 1;
      } else {
        PrintNew(out, a, b, i, j);
        out := out + "+" + b[j] + "\n";
        j := j + 1;
      }
    }
  }

  /** The two loops after the walk. */
  method PrintRest(a: seq<string>, b: seq<string>, walked: string, from: nat, to: nat) returns (out: string)
    requires Printing(walked, a, b, from, to) && (from == |a| || to == |b|)
    ensures out == Terminate(Diff(a, b), '\n')
  {
    out := walked;
    var i, j := from, to;
    while i < |a|
      invariant Printing(out, a, b, i, j) && (i < |a| ==> j == |b|)
    {
      PrintOld(out, a, b, i, j);
      out := out + "-" + a[i] + "\n";
      i := i + 1;
    }
    while j < |b|
      invariant Printing(out, a, b, i, j) && i == |a|
    {
      PrintNew(out, a, b, i, j);
      out := out + "+" + b[j] + "\n";
      j := j + 1;
    }
    Printed(out, a, b);
  }

  method LineDiff(before: string, after: string) returns (out: string)
    ensures out == Terminate(Diff(Lines(before), Lines(after)), '\n')
    ensures IsMinimalDiff(out, Lines(before), Lines(after))
    ensures RemovedFirst(Pieces(out, '\n'))
  {
    var a, b := Lines(before), Lines(after);
    var lcs := FillTable(a, b);
    var walked, i, j := Walk(a, b, lcs);
    out := PrintRest(a, b, walked, i, j);
    LinesHaveNoNewline(before);
    LinesHaveNoNewline(after);
    DiffIsMinimal(a, b);
    DiffIsClean(a, b);
    PiecesOfTerminated(Diff(a, b), '\n');
    DiffRemovesFirst(a, b);
  }
}
