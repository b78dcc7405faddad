/** `shell_quote` and `login_shell_args` of crates/rbs-setup/src/bootstrap.rs, against the quoting rules of
    sections 2.2.1 (escape character) and 2.2.2 (single quotes) of POSIX.1-2017 Shell Command Language. */
module ShellQuote {
  import opened Options
  import opened Segments

  // ------------------------------------------------------------------------------------------
  // The shell's side

  predicate IsBlank(c: char) {
    c == ' ' || c == '\t'
  }

  /** Characters section 2.2 says must be quoted to stand for themselves, and that are not handled below. */
  predicate IsSpecial(c: char) {
    || c == '|' || c == '&' || c == ';' || c == '<' || c == '>' || c == '(' || c == ')' || c == '$' || c == '`'
    || c == '"' || c == '*' || c == '?' || c == '[' || c == '#' || c == '~' || c == '=' || c == '%' || c == '\n'
  }

  /** The words a shell makes of `s` when `word` is the word begun so far; None when something other than
      literal words would be read (an operator, an expansion, an unterminated quote). */
  function Words(s: string, word: Option<string>): Option<seq<string>>
    decreases |s|
  {
    if s == [] then Some(Begun(word))
    else if IsBlank(s[0]) then Prepend(Begun(word), Words(s[1..], None))
    else if s[0] == '\'' then
      var i := Find(s[1..], '\'');
      if 1 + i == |s| then None else Words(s[i + 2..], Extend(word, s[1..1 + i]))
    else if s[0] == '\\' then
      if |s| == 1 then None
      else if s[1] == '\n' then Words(s[2..], word)
      else Words(s[2..], Extend(word, [s[1]]))
    else if IsSpecial(s[0]) then None
    else Words(s[1..], Extend(word, [s[0]]))
  }

  function Begun(word: Option<string>): seq<string> {
    if word.Some? then [word.value] else []
  }

  function Extend(word: Option<string>, s: string): Option<string> {
    Some((if word.Some? then word.value else []) + s)
  }

  function Prepend(ws: seq<string>, rest: Option<seq<string>>): Option<seq<string>> {
    if rest.None? then None else Some(ws + rest.value)
  }

  // ------------------------------------------------------------------------------------------
  // The quoting

  /** `s.replace('\'', r"'\''")` */
  function Escaped(s: string): string {
    if s == [] then [] else (if s[0] == '\'' then "'\\''" else [s[0]]) + Escaped(s[1..])
  }

  function Quote(s: string): string {
    "'" + Escaped(s) + "'"
  }

  function LoginShellArgs(host: string, cmd: string): seq<string> {
    [host, "bash", "-lc", Quote(cmd)]
  }

  /** How ssh passes the words after the host on. */
  function Join(words: seq<string>): string {
    if words == [] then [] else if |words| == 1 then words[0] else words[0] + " " + Join(words[1..])
  }

  // ------------------------------------------------------------------------------------------
  // The shell undoes the quoting

  lemma ExtendTwice(word: Option<string>, a: string, b: string)
    ensures Extend(Extend(word, a), b) == Extend(word, a + b)
  {
    var w := if word.Some? then word.value else [];
    assert w + a + b == w + (a + b);
  }

  lemma {:induction false} EscapedPlain(s: string, rest: string)
    requires '\'' !in s
    ensures Escaped(s + rest) == s + Escaped(rest)
  {
    if s == [] {
      assert s + rest == rest;
    } else {
      EscapedPlain(s[1..], rest);
      assert (s + rest)[1..] == s[1..] + rest;
    }
  }

  lemma ReadQuoted(s: string, rest: string, word: Option<string>)
    requires '\'' !in s
    ensures Words("'" + s + "'" + rest, word) == Words(rest, Extend(word, s))
  {
    var t := "'" + s + "'" + rest;
    FindIn(t[1..], '\'', |s|);
    assert t[1..1 + |s|] == s && t[|s| + 2..] == rest;
  }

  lemma ReadEscaped(rest: string, word: Option<string>)
    ensures Words("\\'" + rest, word) == Words(rest, Extend(word, "'"))
  {
    assert ("\\'" + rest)[2..] == rest;
  }

  lemma EscapedSplits(s: string, i: nat)
    requires i == Find(s, '\'') < |s|
    ensures Escaped(s) == s[..i] + ("'" + "\\'" + "'" + Escaped(s[i + 1..]))
  {
    var b := s[i..];
    assert s == s[..i] + b;
    EscapedPlain(s[..i], b);
    EscapedQuote(b, s[i + 1..]);
  }

  lemma EscapedQuote(b: string, rest: string)
    requires b == "'" + rest
    ensures Escaped(b) == "'" + "\\'" + "'" + Escaped(rest)
  {
    assert b[1..] == rest;
    assert "'\\''" == "'" + "\\'" + "'";
  }

  /** An embedded quote closes the string, adds an escaped quote and reopens it. */
  lemma QuoteSplits(s: string, i: nat, rest: string)
    requires i == Find(s, '\'') < |s|
    ensures Quote(s) + rest == "'" + s[..i] + "'" + ("\\'" + (Quote(s[i + 1..]) + rest))
  {
    EscapedSplits(s, i);
    Regroup("'", s[..i], "\\'", Escaped(s[i + 1..]), rest);
  }

  lemma Regroup(q: string, a: string, x: string, e: string, rest: string)
    ensures q + (a + (q + x + q + e)) + q + rest == q + a + q + (x + (q + e + q + rest))
  {
  }

  lemma QuotePlain(s: string, rest: string)
    requires '\'' !in s
    ensures Quote(s) + rest == "'" + s + "'" + rest
  {
    EscapedPlain(s, "");
    assert s + "" == s;
  }

  /** A quoted string reads back as itself, whatever it contains and wherever it stands. */
  lemma {:induction false} QuoteReadsBack(s: string, rest: string, word: Option<string>)
    ensures Words(Quote(s) + rest, word) == Words(rest, Extend(word, s))
    decreases |s|
  {
    var i := Find(s, '\'');
    if i == |s| {
      QuotePlain(s, rest);
      ReadQuoted(s, rest, word);
    } else {
      QuoteSplits(s, i, rest);
      PastQuote(s[..i], Quote(s[i + 1..]) + rest, word);
      QuoteReadsBack(s[i + 1..], rest, Extend(word, s[..i] + "'"));
      ExtendTwice(word, s[..i] + "'", s[i + 1..]);
      assert s[..i] + "'" + s[i + 1..] == s;
    }
  }

  lemma PastQuote(a: string, more: string, word: Option<string>)
    requires '\'' !in a
    ensures Words("'" + a + "'" + ("\\'" + more), word) == Words(more, Extend(word, a + "'"))
  {
    ReadQuoted(a, "\\'" + more, word);
    ReadEscaped(more, Extend(word, a));
    ExtendTwice(word, a, "'");
  }

  predicate IsPlain(c: char) {
    !IsBlank(c) && c != '\'' && c != '\\' && !IsSpecial(c)
  }

  lemma {:induction false} PlainReadsBack(s: string, rest: string, word: Option<string>)
    requires forall i :: 0 <= i < |s| ==> IsPlain(s[i])
    requires s != [] || word.Some?
    ensures Words(s + rest, word) == Words(rest, Extend(word, s))
    decreases |s|
  {
    if s == [] {
      assert s + rest == rest && word.value + s == word.value;
    } else {
      assert (s + rest)[1..] == s[1..] + rest;
      PlainReadsBack(s[1..], rest, Extend(word, [s[0]]));
      ExtendTwice(word, [s[0]], s[1..]);
      assert [s[0]] + s[1..] == s;
    }
  }

  function QuoteAll(words: seq<string>): seq<string> {
    if words == [] then [] else [Quote(words[0])] + QuoteAll(words[1..])
  }

  lemma ReadBlank(rest: string, w: string)
    ensures Words(" " + rest, Some(w)) == Prepend([w], Words(rest, None))
  {
    assert (" " + rest)[1..] == rest;
  }

  /** Any list of words, quoted and joined with spaces, reads back as that list. */
  lemma {:induction false} QuotedWordsReadBack(words: seq<string>)
    ensures Words(Join(QuoteAll(words)), None) == Some(words)
  {
    if words != [] {
      var w, rest := words[0], words[1..];
      JoinQuoted(w, rest);
      assert words == [w] + rest;
      if rest == [] {
        assert words == [w];
        ReadLastQuoted(w);
      } else {
        QuotedWordsReadBack(rest);
        ReadFirstQuoted(w, Join(QuoteAll(rest)));
      }
    }
  }

  lemma JoinQuoted(w: string, rest: seq<string>)
    ensures Join(QuoteAll([w] + rest)) == if rest == [] then Quote(w) else Quote(w) + " " + Join(QuoteAll(rest))
  {
    var words, q := [w] + rest, QuoteAll(rest);
    assert words[1..] == rest;
    assert QuoteAll(words) == [Quote(w)] + q && ([Quote(w)] + q)[1..] == q;
    assert rest == [] <==> q == [];
  }

  lemma ReadFirstQuoted(w: string, rest: string)
    ensures Words(Quote(w) + " " + rest, None) == Prepend([w], Words(rest, None))
  {
    assert Quote(w) + " " + rest == Quote(w) + (" " + rest);
    QuoteReadsBack(w, " " + rest, None);
    assert [] + w == w;
    ReadBlank(rest, w);
  }

  lemma ReadPlainWord(p: string, rest: string)
    requires p != [] && forall i :: 0 <= i < |p| ==> IsPlain(p[i])
    ensures Words(p + " " + rest, None) == Prepend([p], Words(rest, None))
  {
    assert p + " " + rest == p + (" " + rest);
    PlainReadsBack(p, " " + rest, None);
    assert [] + p == p;
    ReadBlank(rest, p);
  }

  lemma ReadLastQuoted(s: string)
    ensures Words(Quote(s), None) == Some([s])
  {
    QuoteReadsBack(s, "", None);
    assert Quote(s) + "" == Quote(s) && [] + s == s;
  }

  lemma JoinThree(a: string, b: string, c: string)
    ensures Join([a, b, c]) == a + " " + (b + " " + c)
  {
    var words := [a, b, c];
    assert words[1..] == [b, c] && words[1..][1..] == [c];
    assert Join([b, c]) == b + " " + Join([c]);
  }

  /** The remote shell sees `bash`, `-lc` and the command as one word. */
  lemma LoginShellReadsBack(host: string, cmd: string)
    ensures Words(Join(LoginShellArgs(host, cmd)[1..]), None) == Some(["bash", "-lc", cmd])
  {
    assert LoginShellArgs(host, cmd)[1..] == ["bash", "-lc", Quote(cmd)];
    JoinThree("bash", "-lc", Quote(cmd));
    assert IsPlain('b') && IsPlain('a') && IsPlain('s') && IsPlain('h') && IsPlain('-') && IsPlain('l') && IsPlain('c');
    ReadPlainWord("bash", "-lc" + " " + Quote(cmd));
    ReadPlainWord("-lc", Quote(cmd));
    ReadLastQuoted(cmd);
    var words := ["bash"] + (["-lc"] + [cmd]);
    assert words == ["bash", "-lc", cmd];
  }
}
