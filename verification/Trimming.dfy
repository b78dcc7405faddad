/** `str::trim` and `str::trim_start`: Unicode White_Space is stripped. */
module Trimming {
  predicate IsSpace(c: char) {
    var n := c as int;
    || 0x9 <= n <= 0xD || n == 0x20 || n == 0x85 || n == 0xA0 || n == 0x1680 || 0x2000 <= n <= 0x200A
    || n == 0x2028 || n == 0x2029 || n == 0x202F || n == 0x205F || n == 0x3000
  }

  function TrimStart(s: string): (t: string)
    ensures t == [] || !IsSpace(t[0])
  {
    if s != [] && IsSpace(s[0]) then TrimStart(s[1..]) else s
  }

  function TrimEnd(s: string): (t: string)
    ensures t == [] || !IsSpace(t[|t| - 1])
  {
    if s != [] && IsSpace(s[|s| - 1]) then TrimEnd(s[..|s| - 1]) else s
  }

  function Trim(s: string): string {
    TrimEnd(TrimStart(s))
  }

  predicate StartsWith(s: string, c: char) {
    s != [] && s[0] == c
  }

  lemma {:induction false} TrimEndKeeps(p: string, x: string)
    requires p != [] && !IsSpace(p[|p| - 1])
    ensures TrimEnd(p + x) == p + TrimEnd(x)
    decreases |x|
  {
    if x == [] {
      assert p + x == p;
    } else if IsSpace(x[|x| - 1]) {
      assert (p + x)[..|p + x| - 1] == p + x[..|x| - 1];
      TrimEndKeeps(p, x[..|x| - 1]);
    }
  }

  /** The first visible character survives trimming on the right. */
  lemma TrimKeepsFirst(s: string, c: char)
    requires !IsSpace(c)
    ensures StartsWith(TrimStart(s), c) <==> StartsWith(Trim(s), c)
  {
    var t := TrimStart(s);
    if t != [] {
      TrimEndKeeps(t[..1], t[1..]);
      assert t[..1] + t[1..] == t;
    }
  }

  lemma {:induction false} TrimStartSnoc(s: string, c: char)
    requires IsSpace(c)
    ensures TrimStart(s + [c]) == if TrimStart(s) == [] then [] else TrimStart(s) + [c]
  {
    if s == [] {
      assert ([] + [c])[1..] == [];
    } else if IsSpace(s[0]) {
      assert (s + [c])[1..] == s[1..] + [c];
      TrimStartSnoc(s[1..], c);
    }
  }

  lemma TrimSnoc(s: string, c: char)
    requires IsSpace(c)
    ensures Trim(s + [c]) == Trim(s)
  {
    TrimStartSnoc(s, c);
    var t := TrimStart(s);
    assert (t + [c])[..|t|] == t;
  }

  lemma {:induction false} TrimOfTrimEnd(s: string)
    ensures Trim(TrimEnd(s)) == Trim(s)
  {
    if s != [] && IsSpace(s[|s| - 1]) {
      TrimOfTrimEnd(s[..|s| - 1]);
      TrimSnoc(s[..|s| - 1], s[|s| - 1]);
      assert s[..|s| - 1] + [s[|s| - 1]] == s;
    }
  }

  /** A text with visible characters at both ends is left alone. */
  lemma TrimIdentity(s: string)
    requires s == [] || (!IsSpace(s[0]) && !IsSpace(s[|s| - 1]))
    ensures Trim(s) == s
  {
  }

  ghost predicate Blank(s: string) {
    forall c :: c in s ==> IsSpace(c)
  }

  /** What is trimmed away is white space at the ends, and all of it. */
  lemma {:induction false} TrimmedAtStart(s: string) returns (blank: string)
    ensures s == blank + TrimStart(s) && Blank(blank)
  {
    if s != [] && IsSpace(s[0]) {
      blank := TrimmedAtStart(s[1..]);
      blank := [s[0]] + blank;
      assert s == [s[0]] + s[1..];
    } else {
      blank := [];
    }
  }

  lemma {:induction false} TrimmedAtEnd(s: string) returns (blank: string)
    ensures s == TrimEnd(s) + blank && Blank(blank)
  {
    if s != [] && IsSpace(s[|s| - 1]) {
      blank := TrimmedAtEnd(s[..|s| - 1]);
      blank := blank + [s[|s| - 1]];
      assert s == s[..|s| - 1] + [s[|s| - 1]];
    } else {
      blank := [];
    }
  }

  lemma TrimExactly(s: string) returns (before: string, after: string)
    ensures s == before + Trim(s) + after && Blank(before) && Blank(after)
    ensures Trim(s) == [] || (!IsSpace(Trim(s)[0]) && !IsSpace(Trim(s)[|Trim(s)| - 1]))
  {
    before := TrimmedAtStart(s);
    after := TrimmedAtEnd(TrimStart(s));
    var t := TrimStart(s);
    if t != [] {
      TrimEndKeeps(t[..1], t[1..]);
      assert t[..1] + t[1..] == t;
    }
  }
}
