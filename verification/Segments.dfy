/** A sequence cut at a terminator: the terminated pieces and the unfinished tail. */
module Segments {
  /** Index of the first `sep`, or the length. */
  function Find<T(==)>(s: seq<T>, sep: T): (i: nat)
    ensures i <= |s|
    ensures forall k :: 0 <= k < i ==> s[k] != sep
    ensures i < |s| ==> s[i] == sep
  {
    if s == [] || s[0] == sep then 0 else 1 + Find(s[1..], sep)
  }

  lemma FindIn<T>(s: seq<T>, sep: T, i: nat)
    requires i <= |s| && (forall k :: 0 <= k < i ==> s[k] != sep) && (i < |s| ==> s[i] == sep)
    ensures Find(s, sep) == i
  {
  }

  function Pieces<T(==)>(s: seq<T>, sep: T): seq<seq<T>> {
    if s == [] then []
    else
      var front, last := s[..|s| - 1], s[|s| - 1];
      if last == sep then Pieces(front, sep) + [Tail(front, sep)] else Pieces(front, sep)
  }

  function Tail<T(==)>(s: seq<T>, sep: T): (t: seq<T>)
    ensures sep !in t
  {
    if s == [] || s[|s| - 1] == sep then [] else Tail(s[..|s| - 1], sep) + [s[|s| - 1]]
  }

  lemma CutSnoc<T>(s: seq<T>, x: T, sep: T)
    ensures Pieces(s + [x], sep) == Pieces(s, sep) + if x == sep then [Tail(s, sep)] else []
    ensures Tail(s + [x], sep) == if x == sep then [] else Tail(s, sep) + [x]
  {
    assert (s + [x])[..|s|] == s;
  }

  lemma Regroup<T>(a: seq<T>, b: seq<T>, c: seq<T>)
    ensures a + (b + c) == a + b + c
  {
  }

  /** Cutting can be resumed from the tail: where the input is split does not matter. */
  lemma CutResumes<T>(a: seq<T>, b: seq<T>, sep: T)
    ensures Pieces(a + b, sep) == Pieces(a, sep) + Pieces(Tail(a, sep) + b, sep)
    ensures Tail(a + b, sep) == Tail(Tail(a, sep) + b, sep)
  {
    ResumeAfter(a, Pieces(a, sep), Tail(a, sep), b, sep);
  }

  lemma {:induction false} ResumeAfter<T>(a: seq<T>, before: seq<seq<T>>, t: seq<T>, b: seq<T>, sep: T)
    requires Pieces(a, sep) == before && Tail(a, sep) == t && sep !in t
    ensures Pieces(a + b, sep) == before + Pieces(t + b, sep) && Tail(a + b, sep) == Tail(t + b, sep)
  {
    if b == [] {
      NoPieces(t, sep);
      assert a + b == a && t + b == t;
    } else {
      var front, x := b[..|b| - 1], b[|b| - 1];
      ResumeAfter(a, before, t, front, sep);
      SplitLast(a, b);
      SplitLast(t, b);
      ResumeSnoc(before, a + front, t + front, x, sep);
    }
  }

  lemma SplitLast<T>(a: seq<T>, b: seq<T>)
    requires b != []
    ensures a + b == a + b[..|b| - 1] + [b[|b| - 1]]
  {
  }

  lemma ResumeSnoc<T>(before: seq<seq<T>>, s: seq<T>, t: seq<T>, x: T, sep: T)
    requires Pieces(s, sep) == before + Pieces(t, sep) && Tail(s, sep) == Tail(t, sep)
    ensures Pieces(s + [x], sep) == before + Pieces(t + [x], sep) && Tail(s + [x], sep) == Tail(t + [x], sep)
  {
    CutSnoc(s, x, sep);
    CutSnoc(t, x, sep);
    Regroup(before, Pieces(t, sep), if x == sep then [Tail(t, sep)] else []);
  }

  lemma {:induction false} NoPieces<T>(s: seq<T>, sep: T)
    requires sep !in s
    ensures Pieces(s, sep) == [] && Tail(s, sep) == s
  {
    if s != [] {
      var front, x := s[..|s| - 1], s[|s| - 1];
      NoPieces(front, sep);
      assert s == front + [x];
      CutSnoc(front, x, sep);
    }
  }

  lemma PiecesOfOne<T>(line: seq<T>, rest: seq<T>, sep: T)
    requires sep !in line
    ensures Pieces(line + [sep] + rest, sep) == [line] + Pieces(rest, sep)
    ensures Tail(line + [sep] + rest, sep) == Tail(rest, sep)
  {
    NoPieces(line, sep);
    CutSnoc(line, sep, sep);
    CutResumes(line + [sep], rest, sep);
    assert [] + rest == rest;
  }

  function Terminate<T>(lines: seq<seq<T>>, sep: T): seq<T> {
    if lines == [] then [] else lines[0] + [sep] + Terminate(lines[1..], sep)
  }

  lemma TerminateFirst<T>(first: seq<T>, rest: seq<seq<T>>, sep: T)
    ensures Terminate([first] + rest, sep) == first + [sep] + Terminate(rest, sep)
  {
    assert ([first] + rest)[1..] == rest;
  }

  lemma {:induction false} PiecesOfTerminated<T>(lines: seq<seq<T>>, sep: T)
    requires forall i :: 0 <= i < |lines| ==> sep !in lines[i]
    ensures Pieces(Terminate(lines, sep), sep) == lines && Tail(Terminate(lines, sep), sep) == []
  {
    if lines != [] {
      var first, rest := lines[0], lines[1..];
      PiecesOfTerminated(rest, sep);
      assert lines == [first] + rest;
      TerminateFirst(first, rest, sep);
      PiecesOfOne(first, Terminate(rest, sep), sep);
    }
  }

  lemma {:induction false} TerminateConcat<T>(a: seq<seq<T>>, b: seq<seq<T>>, sep: T)
    ensures Terminate(a + b, sep) == Terminate(a, sep) + Terminate(b, sep)
  {
    if a == [] {
      assert a + b == b;
    } else {
      var first, rest := a[0], a[1..];
      TerminateConcat(rest, b, sep);
      assert a == [first] + rest && a + b == [first] + (rest + b);
      TerminateFirst(first, rest, sep);
      TerminateFirst(first, rest + b, sep);
      Regroup(first + [sep], Terminate(rest, sep), Terminate(b, sep));
    }
  }

  lemma TerminateSnoc<T>(lines: seq<seq<T>>, last: seq<T>, sep: T)
    ensures Terminate(lines + [last], sep) == Terminate(lines, sep) + last + [sep]
  {
    TerminateConcat(lines, [last], sep);
    TerminateFirst(last, [], sep);
    assert [last] + [] == [last];
    Regroup(Terminate(lines, sep), last, [sep]);
  }

  /** Nothing is lost by cutting, and no terminator is left in a piece. */
  lemma {:induction false} CutIsExact<T>(s: seq<T>, sep: T)
    ensures Terminate(Pieces(s, sep), sep) + Tail(s, sep) == s
    ensures forall i :: 0 <= i < |Pieces(s, sep)| ==> sep !in Pieces(s, sep)[i]
  {
    if s != [] {
      var front, x := s[..|s| - 1], s[|s| - 1];
      CutIsExact(front, sep);
      assert s == front + [x];
      CutSnoc(front, x, sep);
      if x == sep {
        TerminateSnoc(Pieces(front, sep), Tail(front, sep), sep);
      } else {
        Regroup(Terminate(Pieces(front, sep), sep), Tail(front, sep), [x]);
      }
    }
  }
}
