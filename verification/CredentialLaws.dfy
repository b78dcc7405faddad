/** What the credentials editor promises its reader: the written keys come back, every other profile reads as
    before, and editing twice changes nothing - each with its exact condition. */
module CredentialLaws {
  import opened Options
  import opened Segments
  import opened TextLines
  import opened Trimming
  import opened Credentials

  ghost predicate OneLine(s: string) {
    '\n' !in s
  }

  ghost predicate Clean(lines: seq<string>) {
    forall i :: 0 <= i < |lines| ==> OneLine(lines[i])
  }

  /** What the reader makes of a written value: surrounding white space is lost, an empty value is no value. */
  function Keyed(value: string): Option<string> {
    if Trim(value) == [] then None else Some(Trim(value))
  }

  // ------------------------------------------------------------------------------------------
  // The lines of an edited text

  /** The lines of a text before a '\r' is dropped from any. */
  function RawLines(text: string): seq<string> {
    var last := Tail(text, '\n');
    Pieces(text, '\n') + (if last == [] then [] else [last])
  }

  lemma RawLinesTrim(text: string)
    ensures |RawLines(text)| == |Lines(text)|
    ensures forall i :: 0 <= i < |Lines(text)| ==> Trim(RawLines(text)[i]) == Trim(Lines(text)[i])
  {
    forall i | 0 <= i < |Lines(text)| ensures Trim(RawLines(text)[i]) == Trim(Lines(text)[i]) {
      TrimStripsReturn(RawLines(text)[i]);
    }
  }

  lemma OpenedLines(text: string)
    requires text != []
    ensures Pieces(Opened(text), '\n') == RawLines(text) + [""]
  {
    var closed := if text[|text| - 1] == '\n' then text else text + ['\n'];
    if text[|text| - 1] != '\n' {
      CutSnoc(text, '\n', '\n');
      assert Tail(text, '\n') != [];
    }
    assert Opened(text) == closed + ['\n'];
    CutSnoc(closed, '\n', '\n');
  }

  lemma OpenedHasNo(text: string, header: string)
    requires HeaderAt(Lines(text), header) == |Lines(text)| && StartsWith(header, '[')
    ensures HasNo(Pieces(Opened(text), '\n'), header)
  {
    if text != [] {
      OpenedLines(text);
      RawLinesTrim(text);
      assert Trim("") == "";
      var raw, before := RawLines(text), RawLines(text) + [""];
      forall i | 0 <= i < |before| ensures Trim(before[i]) != header {
        assert i < |raw| ==> before[i] == raw[i];
      }
    }
  }

  lemma NextStartsWithHeader(lines: seq<string>)
    ensures var after := lines[NextSection(lines)..]; after == [] || StartsWith(Trim(after[0]), '[')
  {
    var end := NextSection(lines);
    if end < |lines| {
      TrimKeepsFirst(lines[end], '[');
    }
  }

  /** The section goes where no header of that name stands before it, and is followed by a header or nothing. */
  lemma Placement(text: string, header: string)
    requires StartsWith(header, '[')
    ensures HasNo(Before(text, header), header)
    ensures After(text, header) == [] || StartsWith(Trim(After(text, header)[0]), '[')
    ensures Clean(Before(text, header)) && Clean(After(text, header))
  {
    var lines := Lines(text);
    var start := HeaderAt(lines, header);
    if start == |lines| {
      OpenedHasNo(text, header);
      CutIsExact(Opened(text), '\n');
    } else {
      var rest := lines[start + 1..];
      NextStartsWithHeader(rest);
      LinesHaveNoNewline(text);
      CleanSlice(lines, start);
      CleanSlice(lines, start + 1);
      CleanSlice(rest, NextSection(rest));
    }
  }

  lemma CleanSlice(lines: seq<string>, i: nat)
    requires Clean(lines) && i <= |lines|
    ensures Clean(lines[..i]) && Clean(lines[i..])
  {
  }

  /** Arguments that each fit on one line. */
  ghost predicate OneLiners(profile: string, access: string, secret: string) {
    OneLine(profile) && OneLine(access) && OneLine(secret)
  }

  function EditedLines(text: string, profile: string, access: string, secret: string): seq<string> {
    Before(text, Header(profile)) + Section(profile, access, secret) + After(text, Header(profile))
  }

  lemma LinesOfEdited(text: string, profile: string, access: string, secret: string)
    requires OneLiners(profile, access, secret)
    ensures Lines(Edited(text, profile, access, secret)) == WithoutReturns(EditedLines(text, profile, access, secret))
  {
    TrimHeader(profile);
    Placement(text, Header(profile));
    SectionIsClean(profile, access, secret);
    LinesOfTerminated(EditedLines(text, profile, access, secret));
  }

  lemma SectionIsClean(profile: string, access: string, secret: string)
    requires OneLiners(profile, access, secret)
    ensures Clean(Section(profile, access, secret))
  {
    assert OneLine(ACCESS) && OneLine(SECRET);
  }

  lemma LinesOfTerminated(lines: seq<string>)
    requires Clean(lines)
    ensures Lines(Terminate(lines, '\n')) == WithoutReturns(lines)
  {
    PiecesOfTerminated(lines, '\n');
  }

  /** The reader sees what was before, the section, and what comes after. */
  lemma ReadEdited(text: string, profile: string, access: string, secret: string, header: string)
    requires OneLiners(profile, access, secret)
    ensures var before := Read(Before(text, Header(profile)), header, START);
      var section := Read(Section(profile, access, secret), header, before);
      Read(Lines(Edited(text, profile, access, secret)), header, START) == Read(After(text, Header(profile)),
          header, section)
  {
    var before, after := Before(text, Header(profile)), After(text, Header(profile));
    var written := Section(profile, access, secret);
    LinesOfEdited(text, profile, access, secret);
    ReadWithoutReturns(before + written + after, header, START);
    ReadConcat(before + written, after, header, START);
    ReadConcat(before, written, header, START);
  }

  // ------------------------------------------------------------------------------------------
  // Reading the section

  lemma TrimHeader(profile: string)
    ensures Trim(Header(profile)) == Header(profile) && StartsWith(Header(profile), '[')
  {
    TrimIdentity(Header(profile));
  }

  /** A name such as `aws_access_key_id`. */
  ghost predicate Plain(name: string) {
    name != [] && '=' !in name && name[0] != '[' && !IsSpace(name[0]) && !IsSpace(name[|name| - 1])
  }

  lemma KeyLineTrims(name: string, value: string)
    requires Plain(name)
    ensures Trim(KeyLine(name, value)) == name + " =" + TrimEnd(" " + value)
  {
    var line, p := KeyLine(name, value), name + " =";
    assert line == p + (" " + value);
    TrimEndKeeps(p, " " + value);
    assert TrimStart(line) == line;
  }

  lemma TrimSpaced(value: string)
    ensures Trim(TrimEnd(" " + value)) == Trim(value)
  {
    TrimOfTrimEnd(" " + value);
    assert (" " + value)[1..] == value;
  }

  lemma TrimName(name: string)
    requires Plain(name)
    ensures Trim(name + " ") == name
  {
    TrimSnoc(name, ' ');
    TrimIdentity(name);
    assert name + [' '] == name + " ";
  }

  lemma KeyLineSplits(name: string, value: string)
    requires Plain(name)
    ensures var t := Trim(KeyLine(name, value)); var i := Find(t, '=');
      !StartsWith(t, '[') && i < |t| && Trim(t[..i]) == name && Trim(t[i + 1..]) == Trim(value)
  {
    KeyLineTrims(name, value);
    var v := TrimEnd(" " + value);
    var t := name + " =" + v;
    FindIn(t, '=', |name| + 1);
    assert t[..|name| + 1] == name + " " && t[|name| + 2..] == v;
    TrimName(name);
    TrimSpaced(value);
  }

  lemma NamesArePlain()
    ensures Plain(ACCESS) && Plain(SECRET) && ACCESS != SECRET
  {
    assert |ACCESS| == 17 && |SECRET| == 21;
  }

  lemma ReadThree(lines: seq<string>, header: string, st: Reading)
    requires |lines| == 3
    ensures Read(lines, header, st) == ReadLine(ReadLine(ReadLine(st, lines[0], header), lines[1], header),
        lines[2], header)
  {
    var one := ReadLine(st, lines[0], header);
    var two := ReadLine(one, lines[1], header);
    assert lines[1..][1..] == lines[2..] && lines[2..][1..] == [];
    assert Read(lines[2..], header, two) == ReadLine(two, lines[2], header);
    assert Read(lines[1..], header, one) == Read(lines[2..], header, two);
  }

  lemma ReadAccessLine(value: string, header: string, st: Reading)
    ensures ReadLine(st, KeyLine(ACCESS, value), header) ==
      if st.inSection then st.(keys := Over(Keys(Keyed(value), None), st.keys)) else st
  {
    NamesArePlain();
    KeyLineSplits(ACCESS, value);
  }

  lemma ReadSecretLine(value: string, header: string, st: Reading)
    ensures ReadLine(st, KeyLine(SECRET, value), header) ==
      if st.inSection then st.(keys := Over(Keys(None, Keyed(value)), st.keys)) else st
  {
    NamesArePlain();
    KeyLineSplits(SECRET, value);
  }

  lemma ReadSection(profile: string, access: string, secret: string, header: string, st: Reading)
    ensures Read(Section(profile, access, secret), header, st) ==
      if Header(profile) == header then Reading(true, true, Over(Keys(Keyed(access), Keyed(secret)), st.keys))
      else st.(inSection := false)
  {
    TrimHeader(profile);
    ReadThree(Section(profile, access, secret), header, st);
    var entered := ReadLine(st, Header(profile), header);
    ReadAccessLine(access, header, entered);
    ReadSecretLine(secret, header, ReadLine(entered, KeyLine(ACCESS, access), header));
  }

  // ------------------------------------------------------------------------------------------
  // Writing, then reading

  /** What sections of the same name further down say. */
  function Later(text: string, profile: string): Keys {
    Read(After(text, Header(profile)), Header(profile), START).keys
  }

  /** The edited profile reads as the written keys, trimmed, under whatever later sections of that name set. */
  lemma WriteThenRead(text: string, profile: string, access: string, secret: string)
    requires OneLiners(profile, access, secret)
    ensures Profile(Edited(text, profile, access, secret), profile) ==
      Some(Over(Later(text, profile), Keys(Keyed(access), Keyed(secret))))
  {
    var header := Header(profile);
    TrimHeader(profile);
    Placement(text, header);
    ReadEdited(text, profile, access, secret, header);
    ReadOutside(Before(text, header), header, START);
    ReadSection(profile, access, secret, header, START);
    var section := Reading(true, true, Over(Keys(Keyed(access), Keyed(secret)), START.keys));
    ReadFromHeader(After(text, header), header, section, section.(inSection := false));
    ReadOverrides(After(text, header), header, section.(inSection := false));
  }

  ghost predicate IsKey(key: string) {
    OneLine(key) && key != [] && Trim(key) == key
  }

  /** The written keys come back exactly when no later section of the same name sets another value. */
  lemma WrittenKeysComeBackExactly(text: string, profile: string, access: string, secret: string)
    requires OneLine(profile) && IsKey(access) && IsKey(secret)
    ensures Profile(Edited(text, profile, access, secret), profile) == Some(Keys(Some(access), Some(secret))) <==>
      && Or(Later(text, profile).access, Some(access)) == Some(access)
      && Or(Later(text, profile).secret, Some(secret)) == Some(secret)
  {
    WriteThenRead(text, profile, access, secret);
  }

  ghost predicate AtMostOneHeader(lines: seq<string>, header: string) {
    forall i, j :: 0 <= i < j < |lines| && Trim(lines[i]) == header ==> Trim(lines[j]) != header
  }

  lemma OnlyHeader(lines: seq<string>, header: string, start: nat, from: nat)
    requires AtMostOneHeader(lines, header) && start < from <= |lines| && Trim(lines[start]) == header
    ensures HasNo(lines[from..], header)
  {
    forall i | 0 <= i < |lines[from..]| ensures Trim(lines[from..][i]) != header {
      assert lines[from..][i] == lines[from + i];
    }
  }

  /** A file with at most one such header gives the written keys back. */
  lemma SingleSectionRoundTrip(text: string, profile: string, access: string, secret: string)
    requires OneLine(profile) && IsKey(access) && IsKey(secret)
    requires AtMostOneHeader(Lines(text), Header(profile))
    ensures Profile(Edited(text, profile, access, secret), profile) == Some(Keys(Some(access), Some(secret)))
  {
    var header := Header(profile);
    var lines, after := Lines(text), After(text, header);
    var start := HeaderAt(lines, header);
    if start < |lines| {
      OnlyHeader(lines, header, start, start + 1 + NextSection(lines[start + 1..]));
    }
    ReadOutside(after, header, START);
    WrittenKeysComeBackExactly(text, profile, access, secret);
  }

  // ------------------------------------------------------------------------------------------
  // Other profiles

  lemma {:induction false} ReadSkipped(lines: seq<string>, header: string, st: Reading)
    requires !st.inSection
    requires forall i :: 0 <= i < |lines| ==> !StartsWith(TrimStart(lines[i]), '[')
    ensures Read(lines, header, st) == st
  {
    if lines != [] {
      TrimKeepsFirst(lines[0], '[');
      ReadSkipped(lines[1..], header, st);
    }
  }

  lemma HeadersDiffer(profile: string, other: string)
    requires profile != other
    ensures Header(profile) != Header(other)
  {
    assert Header(profile)[1..|Header(profile)| - 1] == profile;
    assert Header(other)[1..|Header(other)| - 1] == other;
  }

  lemma ReadRaw(text: string, header: string, st: Reading)
    ensures Read(RawLines(text), header, st) == Read(Lines(text), header, st)
  {
    var ps, last := Pieces(text, '\n'), Tail(text, '\n');
    var end: seq<string> := if last == [] then [] else [last];
    ReadConcat(ps, end, header, st);
    ReadConcat(WithoutReturns(ps), end, header, st);
    ReadWithoutReturns(ps, header, st);
  }

  lemma ReadBlankLine(lines: seq<string>, header: string, st: Reading)
    ensures Read(lines + [""], header, st) == Read(lines, header, st)
  {
    ReadConcat(lines, [""], header, st);
    assert Trim("") == "" && Find("", '=') == 0;
    var got := Read(lines, header, st);
    assert ReadLine(got, "", header) == got;
  }

  /** The old section, like the new one, only takes the reader of another profile out of its section. */
  lemma ReadOldSection(lines: seq<string>, start: nat, header: string, other: string)
    requires start < |lines| && Trim(lines[start]) == header && StartsWith(header, '[') && header != other
    ensures var rest := lines[start + 1..]; var end := NextSection(rest);
      Read(lines, other, START) == Read(rest[end..], other, Read(lines[..start], other, START).(inSection := false))
  {
    var rest := lines[start + 1..];
    var end := NextSection(rest);
    var st := Read(lines[..start], other, START);
    assert lines == lines[..start] + lines[start..];
    ReadConcat(lines[..start], lines[start..], other, START);
    assert lines[start..][1..] == rest;
    assert rest == rest[..end] + rest[end..];
    ReadConcat(rest[..end], rest[end..], other, st.(inSection := false));
    ReadSkipped(rest[..end], other, st.(inSection := false));
  }

  /** Setting one profile leaves what every other profile reads unchanged. */
  lemma OtherProfilesReadTheSame(text: string, profile: string, access: string, secret: string, other: string)
    requires OneLiners(profile, access, secret) && other != profile
    ensures Profile(Edited(text, profile, access, secret), other) == Profile(text, other)
  {
    var header, theirs := Header(profile), Header(other);
    var lines := Lines(text);
    var start := HeaderAt(lines, header);
    HeadersDiffer(profile, other);
    TrimHeader(profile);
    Placement(text, header);
    ReadEdited(text, profile, access, secret, theirs);
    ReadSection(profile, access, secret, theirs, Read(Before(text, header), theirs, START));
    if start < |lines| {
      ReadOldSection(lines, start, header, theirs);
    } else if text != [] {
      OpenedLines(text);
      ReadBlankLine(RawLines(text), theirs, START);
      ReadRaw(text, theirs, START);
    }
  }

  // ------------------------------------------------------------------------------------------
  // Editing twice

  predicate EndsInReturn(line: string) {
    line != [] && line[|line| - 1] == '\r'
  }

  ghost predicate ReturnFree(lines: seq<string>) {
    forall i :: 0 <= i < |lines| ==> !EndsInReturn(lines[i])
  }

  /** Dropping '\r' leaves the printed lines alone exactly when there is none to drop. */
  lemma {:induction false} StripExactly(lines: seq<string>)
    ensures |Terminate(WithoutReturns(lines), '\n')| <= |Terminate(lines, '\n')|
    ensures |Terminate(WithoutReturns(lines), '\n')| == |Terminate(lines, '\n')| <==> ReturnFree(lines)
    ensures ReturnFree(lines) ==> WithoutReturns(lines) == lines
  {
    if lines != [] {
      StripExactly(lines[1..]);
      assert WithoutReturns(lines)[1..] == WithoutReturns(lines[1..]);
      ReturnFreeSplit(lines);
    }
  }

  lemma ReturnFreeSplit(lines: seq<string>)
    requires lines != []
    ensures ReturnFree(lines) <==> !EndsInReturn(lines[0]) && ReturnFree(lines[1..])
  {
    assert forall i :: 0 <= i < |lines| - 1 ==> lines[1..][i] == lines[i + 1];
    if !EndsInReturn(lines[0]) && ReturnFree(lines[1..]) {
      forall i | 0 <= i < |lines| ensures !EndsInReturn(lines[i]) {
        if i > 0 {
          assert lines[1..][i - 1] == lines[i];
        }
      }
    }
  }

  lemma WithoutReturnsConcat(a: seq<string>, b: seq<string>)
    ensures WithoutReturns(a + b) == WithoutReturns(a) + WithoutReturns(b)
  {
  }

  lemma SectionHeadings(profile: string, access: string, secret: string)
    ensures var s := WithoutReturns(Section(profile, access, secret));
      && Trim(s[0]) == Header(profile)
      && !StartsWith(TrimStart(s[1]), '[') && !StartsWith(TrimStart(s[2]), '[')
  {
    TrimHeader(profile);
    TrimStripsReturn(Header(profile));
    NamesArePlain();
    var s := Section(profile, access, secret);
    TrimStripsReturn(s[1]);
    TrimStripsReturn(s[2]);
    KeyLineSplits(ACCESS, access);
    KeyLineSplits(SECRET, secret);
    TrimKeepsFirst(WithoutReturn(s[1]), '[');
    TrimKeepsFirst(WithoutReturn(s[2]), '[');
  }

  /** A second edit finds the section of the first one, and nothing else, to replace. */
  lemma SecondPlacement(b: seq<string>, s: seq<string>, a: seq<string>, header: string)
    requires |s| == 3 && Trim(s[0]) == header
    requires !StartsWith(TrimStart(s[1]), '[') && !StartsWith(TrimStart(s[2]), '[')
    requires HasNo(b, header) && (a == [] || StartsWith(TrimStart(a[0]), '['))
    ensures var lines := b + s + a;
      && HeaderAt(lines, header) == |b|
      && lines[..|b|] == b
      && lines[|b| + 1..] == s[1..] + a
      && NextSection(lines[|b| + 1..]) == 2
      && lines[|b| + 1..][2..] == a
  {
    var lines := b + s + a;
    HeaderIs(lines, header, |b|);
    assert lines[|b| + 1..] == s[1..] + a;
    NextIs(s[1..] + a, 2);
  }

  lemma StrippedPlacement(lines: seq<string>, header: string)
    ensures HasNo(lines, header) ==> HasNo(WithoutReturns(lines), header)
    ensures lines != [] && StartsWith(Trim(lines[0]), '[') ==> StartsWith(TrimStart(WithoutReturns(lines)[0]), '[')
  {
    forall i | 0 <= i < |lines| ensures Trim(WithoutReturns(lines)[i]) == Trim(lines[i]) {
      TrimStripsReturn(lines[i]);
    }
    if lines != [] {
      TrimKeepsFirst(WithoutReturns(lines)[0], '[');
    }
  }

  lemma LinesOfEditedParts(text: string, profile: string, access: string, secret: string)
    requires OneLiners(profile, access, secret)
    ensures Lines(Edited(text, profile, access, secret)) ==
      WithoutReturns(Before(text, Header(profile))) + WithoutReturns(Section(profile, access, secret)) +
          WithoutReturns(After(text, Header(profile)))
  {
    var b, s, a := Before(text, Header(profile)), Section(profile, access, secret), After(text, Header(profile));
    LinesOfEdited(text, profile, access, secret);
    WithoutReturnsConcat(b + s, a);
    WithoutReturnsConcat(b, s);
  }

  lemma EditedAgain(text: string, profile: string, access: string, secret: string)
    requires OneLiners(profile, access, secret)
    ensures var once := Edited(text, profile, access, secret);
      && Before(once, Header(profile)) == WithoutReturns(Before(text, Header(profile)))
      && After(once, Header(profile)) == WithoutReturns(After(text, Header(profile)))
  {
    var header := Header(profile);
    var b, s, a := Before(text, header), Section(profile, access, secret), After(text, header);
    TrimHeader(profile);
    Placement(text, header);
    SectionHeadings(profile, access, secret);
    StrippedPlacement(b, header);
    StrippedPlacement(a, header);
    LinesOfEditedParts(text, profile, access, secret);
    FoundAgain(Edited(text, profile, access, secret), header, WithoutReturns(b), WithoutReturns(s), WithoutReturns(a));
  }

  lemma FoundAgain(once: string, header: string, b: seq<string>, s: seq<string>, a: seq<string>)
    requires Lines(once) == b + s + a && |s| == 3 && Trim(s[0]) == header
    requires !StartsWith(TrimStart(s[1]), '[') && !StartsWith(TrimStart(s[2]), '[')
    requires HasNo(b, header) && (a == [] || StartsWith(TrimStart(a[0]), '['))
    ensures Before(once, header) == b && After(once, header) == a
  {
    SecondPlacement(b, s, a, header);
  }

  /** Editing again with the same keys changes nothing exactly when no line copied by the first edit ends in '\r'. */
  lemma IdempotentExactly(text: string, profile: string, access: string, secret: string)
    requires OneLiners(profile, access, secret)
    ensures var once := Edited(text, profile, access, secret);
      Edited(once, profile, access, secret) == once <==>
        ReturnFree(Before(text, Header(profile))) && ReturnFree(After(text, Header(profile)))
  {
    var header := Header(profile);
    var b, s, a := Before(text, header), Section(profile, access, secret), After(text, header);
    EditedAgain(text, profile, access, secret);
    ThreeParts(b, s, a);
    ThreeParts(WithoutReturns(b), s, WithoutReturns(a));
    StripExactly(b);
    StripExactly(a);
  }

  lemma {:induction false} PiecesWithin(s: string, c: char)
    requires c !in s
    ensures forall i :: 0 <= i < |Pieces(s, '\n')| ==> c !in Pieces(s, '\n')[i]
    ensures c !in Tail(s, '\n')
  {
    if s != [] {
      var front, x := s[..|s| - 1], s[|s| - 1];
      PiecesWithin(front, c);
      assert s == front + [x];
      CutSnoc(front, x, '\n');
    }
  }

  /** On text without '\r' the edit is idempotent. */
  lemma IdempotentWithoutReturns(text: string, profile: string, access: string, secret: string)
    requires OneLiners(profile, access, secret) && '\r' !in text
    ensures var once := Edited(text, profile, access, secret); Edited(once, profile, access, secret) == once
  {
    var header := Header(profile);
    PiecesWithin(text, '\r');
    PiecesWithin(Opened(text), '\r');
    var lines := Lines(text);
    assert forall i :: 0 <= i < |lines| ==> '\r' !in lines[i];
    assert ReturnFree(lines);
    assert ReturnFree(Before(text, header));
    assert ReturnFree(After(text, header));
    IdempotentExactly(text, profile, access, secret);
  }

  // ------------------------------------------------------------------------------------------
  // Bytes of the other sections

  /** Byte offset of line `i`; past the last line, the end of the text. */
  function Offset(text: string, i: nat): nat
    requires i <= |RawLines(text)|
  {
    if i < |RawLines(text)| then |Terminate(RawLines(text)[..i], '\n')| else |text|
  }

  /** What stands before a line are the lines before it; what stands from it on, the terminated lines and the tail. */
  lemma TextAt(text: string, i: nat)
    requires i <= |Pieces(text, '\n')|
    ensures var pieces := Pieces(text, '\n');
      text == Terminate(pieces[..i], '\n') + (Terminate(pieces[i..], '\n') + Tail(text, '\n'))
  {
    var pieces := Pieces(text, '\n');
    CutIsExact(text, '\n');
    assert pieces == pieces[..i] + pieces[i..];
    TerminateConcat(pieces[..i], pieces[i..], '\n');
  }

  lemma SplitAt(text: string, i: nat)
    requires i < |RawLines(text)|
    ensures var pieces, p := Pieces(text, '\n'), Offset(text, i);
      && i <= |pieces| && p <= |text|
      && text[..p] == Terminate(pieces[..i], '\n')
      && text[p..] == Terminate(pieces[i..], '\n') + Tail(text, '\n')
  {
    TextAt(text, i);
    assert RawLines(text)[..i] == Pieces(text, '\n')[..i];
  }

  /** An offset is where its line starts. */
  lemma OffsetStartsLine(text: string, i: nat)
    requires i < |RawLines(text)|
    ensures Offset(text, i) <= |text| && RawLines(text)[i] <= text[Offset(text, i)..]
    ensures Offset(text, i) == 0 || text[Offset(text, i) - 1] == '\n'
  {
    SplitAt(text, i);
    var pieces := Pieces(text, '\n');
    if i > 0 {
      assert pieces[..i] == pieces[..i - 1] + [pieces[i - 1]];
      TerminateConcat(pieces[..i - 1], [pieces[i - 1]], '\n');
      assert Terminate([pieces[i - 1]], '\n') == pieces[i - 1] + "\n";
      assert text[..Offset(text, i)][Offset(text, i) - 1] == '\n';
    }
    if i < |pieces| {
      assert pieces[i..] == [pieces[i]] + pieces[i + 1..];
    }
  }

  /** No line copied by a replacement of the lines from `start` to `end` loses a '\r'. */
  ghost predicate NoReturnLost(text: string, start: nat, end: nat) {
    var pieces := Pieces(text, '\n');
    forall i :: 0 <= i < |pieces| && (i < start || end <= i) ==> !EndsInReturn(pieces[i])
  }

  /** No newline is put behind an unterminated last line. */
  ghost predicate NoNewlineAdded(text: string, end: nat) {
    end == |Lines(text)| || Tail(text, '\n') == []
  }

  lemma CopiedBefore(text: string, start: nat)
    requires start < |Lines(text)|
    ensures |RawLines(text)| == |Lines(text)| && start <= |Pieces(text, '\n')|
    ensures Lines(text)[..start] == WithoutReturns(Pieces(text, '\n')[..start])
  {
    SliceStripped(Pieces(text, '\n'), start);
  }

  lemma SliceStripped(lines: seq<string>, i: nat)
    requires i <= |lines|
    ensures WithoutReturns(lines)[..i] == WithoutReturns(lines[..i])
    ensures WithoutReturns(lines)[i..] == WithoutReturns(lines[i..])
  {
  }

  /** The copied lines after the section, printed: the terminated ones stripped, and the tail with a newline. */
  lemma CopiedAfter(text: string, end: nat)
    requires end < |Lines(text)|
    ensures var pieces, tail := Pieces(text, '\n'), Tail(text, '\n');
      && end <= |pieces|
      && Terminate(Lines(text)[end..], '\n') ==
           Terminate(WithoutReturns(pieces[end..]), '\n') + (if tail == [] then [] else tail + "\n")
  {
    var pieces, tail := Pieces(text, '\n'), Tail(text, '\n');
    var last: seq<string> := if tail == [] then [] else [tail];
    SliceStripped(pieces, end);
    assert Lines(text)[end..] == WithoutReturns(pieces[end..]) + last;
    TerminateConcat(WithoutReturns(pieces[end..]), last, '\n');
    if tail != [] {
      assert last[1..] == [];
      assert Terminate(last, '\n') == tail + "\n";
    }
  }

  lemma ReturnFreeSlices(text: string, start: nat, end: nat)
    requires start <= |Pieces(text, '\n')| && start <= end
    ensures var pieces := Pieces(text, '\n');
      NoReturnLost(text, start, end) <==>
        ReturnFree(pieces[..start]) && (end <= |pieces| ==> ReturnFree(pieces[end..]))
  {
    var pieces := Pieces(text, '\n');
    assert forall i :: 0 <= i < start ==> pieces[..start][i] == pieces[i];
    if end <= |pieces| {
      assert forall i :: end <= i < |pieces| ==> pieces[end..][i - end] == pieces[i];
    }
  }

  /** Both sides of the section, compared by content: a newline put behind the tail shows as the last character, and
      without one every '\r' dropped shows in the length. */
  lemma SidesEqual(a: seq<string>, section: string, b: seq<string>, tail: string)
    requires '\n' !in tail
    ensures Terminate(WithoutReturns(a), '\n') + section
              + (Terminate(WithoutReturns(b), '\n') + (if tail == [] then [] else tail + "\n"))
            == Terminate(a, '\n') + section + (Terminate(b, '\n') + tail)
      <==> ReturnFree(a) && ReturnFree(b) && tail == []
  {
    StripExactly(a);
    StripExactly(b);
    var x := Terminate(WithoutReturns(a), '\n') + section
             + (Terminate(WithoutReturns(b), '\n') + (if tail == [] then [] else tail + "\n"));
    var y := Terminate(a, '\n') + section + (Terminate(b, '\n') + tail);
    if tail != [] {
      assert x[|x| - 1] == '\n';
      assert y[|y| - 1] == tail[|tail| - 1];
      assert tail[|tail| - 1] in tail;
    }
  }

  lemma FrontsEqual(a: seq<string>, section: string)
    ensures Terminate(WithoutReturns(a), '\n') + section == Terminate(a, '\n') + section <==> ReturnFree(a)
  {
    StripExactly(a);
  }

  lemma EditedReplaced(text: string, profile: string, access: string, secret: string, start: nat, end: nat)
    requires start == HeaderAt(Lines(text), Header(profile)) < |Lines(text)|
    requires end == start + 1 + NextSection(Lines(text)[start + 1..])
    ensures Edited(text, profile, access, secret) ==
      Terminate(Lines(text)[..start], '\n') + Terminate(Section(profile, access, secret), '\n')
        + Terminate(Lines(text)[end..], '\n')
  {
    EditedParts(text, profile, access, secret);
    ReplacedParts(Lines(text), start, end, Terminate(Section(profile, access, secret), '\n'));
  }

  lemma ReplacedParts(lines: seq<string>, start: nat, end: nat, section: string)
    requires start < |lines| && end == start + 1 + NextSection(lines[start + 1..])
    ensures Replaced(lines, start, section) ==
      Terminate(lines[..start], '\n') + section + Terminate(lines[end..], '\n')
  {
    assert lines[start + 1..][NextSection(lines[start + 1..])..] == lines[end..];
  }

  /** The bytes before line `start` and from line `end` on are kept around a new section. */
  ghost predicate BytesKept(text: string, edited: string, start: nat, end: nat, section: string)
    requires start <= |RawLines(text)| && end <= |RawLines(text)|
    requires Offset(text, start) <= |text| && Offset(text, end) <= |text|
  {
    edited == text[..Offset(text, start)] + section + text[Offset(text, end)..]
  }

  /** "Leaving every other section byte-for-byte", when a section is replaced: exactly when no copied line loses a
      '\r' and no newline is put behind an unterminated last line. */
  lemma BytesKeptExactly(text: string, profile: string, access: string, secret: string, start: nat, end: nat)
    requires start == HeaderAt(Lines(text), Header(profile)) < |Lines(text)|
    requires end == start + 1 + NextSection(Lines(text)[start + 1..])
    ensures start < end <= |RawLines(text)| == |Lines(text)|
    ensures Offset(text, start) <= |text| && Offset(text, end) <= |text|
    ensures BytesKept(text, Edited(text, profile, access, secret), start, end, Terminate(Section(profile, access,
        secret), '\n'))
      <==> NoReturnLost(text, start, end) && NoNewlineAdded(text, end)
  {
    var section := Terminate(Section(profile, access, secret), '\n');
    EditedReplaced(text, profile, access, secret, start, end);
    SidesKept(text, Edited(text, profile, access, secret), start, end, section);
  }

  lemma SidesKept(text: string, edited: string, start: nat, end: nat, section: string)
    requires start < end <= |Lines(text)|
    requires edited == Terminate(Lines(text)[..start], '\n') + section + Terminate(Lines(text)[end..], '\n')
    ensures |RawLines(text)| == |Lines(text)| && Offset(text, start) <= |text| && Offset(text, end) <= |text|
    ensures BytesKept(text, edited, start, end, section) <==>
      NoReturnLost(text, start, end) && NoNewlineAdded(text, end)
  {
    var pieces, tail := Pieces(text, '\n'), Tail(text, '\n');
    CopiedBefore(text, start);
    SplitAt(text, start);
    ReturnFreeSlices(text, start, end);
    var a := pieces[..start];
    if end < |Lines(text)| {
      CopiedAfter(text, end);
      SplitAt(text, end);
      SidesEqual(a, section, pieces[end..], tail);
    } else {
      LastSection(text, end);
      FrontsEqual(a, section);
      assert Lines(text)[end..] == [] && text[|text|..] == [];
      assert edited == Terminate(WithoutReturns(a), '\n') + section;
    }
  }

  lemma LastSection(text: string, end: nat)
    requires end == |Lines(text)|
    ensures end <= |Pieces(text, '\n')| ==> ReturnFree(Pieces(text, '\n')[end..])
  {
    var pieces := Pieces(text, '\n');
    assert end <= |pieces| ==> pieces[end..] == [];
  }

  /** Appending keeps every byte: the text is followed by at most two newlines and the section. */
  lemma AppendKeepsBytes(text: string, profile: string, access: string, secret: string)
    requires HeaderAt(Lines(text), Header(profile)) == |Lines(text)|
    ensures var section := Terminate(Section(profile, access, secret), '\n');
      Edited(text, profile, access, secret) == text + (if text == [] then "" else if text[|text| - 1] ==
          '\n' then "\n" else "\n\n") + section
  {
    EditedParts(text, profile, access, secret);
    assert text != [] && text[|text| - 1] != '\n' ==> text + "\n" + "\n" == text + "\n\n";
    assert text != [] && text[|text| - 1] == '\n' ==> text + "" + "\n" == text + "\n";
  }

  // ------------------------------------------------------------------------------------------
  // Texts that lose or gain bytes

  lemma TwoPieces(a: string, b: string, tail: string)
    requires OneLine(a) && OneLine(b) && OneLine(tail)
    ensures var text := a + "\n" + (b + "\n" + tail); Pieces(text, '\n') == [a, b] && Tail(text, '\n') == tail
  {
    NoPieces(tail, '\n');
    var second := b + ['\n'] + tail;
    PiecesOfOne(b, tail, '\n');
    assert Pieces(second, '\n') == [b] && Tail(second, '\n') == tail;
    PiecesOfOne(a, second, '\n');
    assert [a] + [b] == [a, b];
    assert second == b + "\n" + tail;
  }

  lemma TerminateTwo(a: string, b: string)
    ensures Terminate([a, b], '\n') == a + "\n" + (b + "\n") && Terminate([a], '\n') == a + "\n"
  {
    assert [a, b][1..] == [b] && [b][1..] == [] && [a][1..] == [];
    assert Terminate([b], '\n') == b + "\n";
  }

  const CRLF_TEXT := "[q]\r" + "\n" + ("[p]" + "\n" + "")

  lemma CrlfLines()
    ensures Pieces(CRLF_TEXT, '\n') == ["[q]\r", "[p]"] && Lines(CRLF_TEXT) == ["[q]", "[p]"]
  {
    TwoPieces("[q]\r", "[p]", "");
    assert "[q]\r"[..3] == "[q]";
    var pieces := ["[q]\r", "[p]"];
    assert WithoutReturns(pieces) == ["[q]", "[p]"];
  }

  lemma HeadersInOrder(first: string, second: string)
    requires first != second
    ensures HeaderAt([Header(first), Header(second)], Header(second)) == 1
  {
    HeadersDiffer(first, second);
    TrimHeader(first);
    TrimHeader(second);
    HeaderIs([Header(first), Header(second)], Header(second), 1);
  }

  /** Section `[q]`, which ends its lines in CRLF, loses a byte when `[p]` is written. */
  lemma CrlfLosesAByte(access: string, secret: string)
    ensures Edited(CRLF_TEXT, "p", access, secret) == "[q]" + "\n" + Terminate(Section("p", access, secret), '\n')
    ensures !NoReturnLost(CRLF_TEXT, 1, 2)
  {
    CrlfLines();
    assert Header("p") == "[p]" && Header("q") == "[q]";
    HeadersInOrder("q", "p");
    var lines := ["[q]", "[p]"];
    assert lines[..1] == ["[q]"] && lines[2..] == [];
    EditedReplaced(CRLF_TEXT, "p", access, secret, 1, 2);
    TerminateTwo("[q]", "");
    assert EndsInReturn(Pieces(CRLF_TEXT, '\n')[0]);
  }

  const OPEN_TEXT := "[p]" + "\n" + ("[q]" + "\n" + "z")

  lemma OpenLines()
    ensures Pieces(OPEN_TEXT, '\n') == ["[p]", "[q]"] && Tail(OPEN_TEXT, '\n') == "z"
    ensures Lines(OPEN_TEXT) == ["[p]", "[q]", "z"]
  {
    TwoPieces("[p]", "[q]", "z");
    var pieces := ["[p]", "[q]"];
    assert WithoutReturns(pieces) == pieces;
  }

  lemma HeadersAdjoin(first: string, second: string, more: string)
    ensures var lines := [Header(first), Header(second), more];
      HeaderAt(lines, Header(first)) == 0 && NextSection(lines[1..]) == 0
  {
    var lines := [Header(first), Header(second), more];
    TrimHeader(first);
    HeaderIs(lines, Header(first), 0);
    TrimHeader(second);
    TrimKeepsFirst(Header(second), '[');
    assert lines[1..][0] == Header(second);
    NextIs(lines[1..], 0);
  }

  /** Section `[q]`, whose last line is not terminated, gains a byte - without any '\r'. */
  lemma OpenEndGainsAByte(access: string, secret: string)
    ensures Edited(OPEN_TEXT, "p", access, secret) ==
      Terminate(Section("p", access, secret), '\n') + ("[q]" + "\n" + ("z" + "\n"))
    ensures NoReturnLost(OPEN_TEXT, 0, 1) && !NoNewlineAdded(OPEN_TEXT, 1)
  {
    OpenLines();
    assert Header("p") == "[p]" && Header("q") == "[q]";
    HeadersAdjoin("p", "q", "z");
    EditedReplaced(OPEN_TEXT, "p", access, secret, 0, 1);
    var lines := ["[p]", "[q]", "z"];
    assert lines[..0] == [] && lines[1..] == ["[q]", "z"];
    TerminateTwo("[q]", "z");
  }

  const RETURN_TEXT := "a\r" + "\n" + ""

  lemma ReturnLines()
    ensures Lines(RETURN_TEXT) == ["a"] && RawLines(RETURN_TEXT) == ["a\r"]
    ensures HeaderAt(["a"], Header("p")) == 1
  {
    NoPieces("", '\n');
    PiecesOfOne("a\r", "", '\n');
    assert "a\r"[..1] == "a";
    assert Trim("a") == "a" && Header("p") == "[p]";
    HeaderIs(["a"], Header("p"), 1);
  }

  /** Appended to a CRLF text, the section is found by the second edit, which drops the '\r' the first one kept. */
  lemma SecondEditDropsReturn(access: string, secret: string)
    requires OneLine(access) && OneLine(secret)
    ensures var once := Edited(RETURN_TEXT, "p", access, secret); Edited(once, "p", access, secret) != once
  {
    ReturnLines();
    OpenedLines(RETURN_TEXT);
    var before := Before(RETURN_TEXT, Header("p"));
    assert before == ["a\r", ""];
    assert EndsInReturn(before[0]);
    IdempotentExactly(RETURN_TEXT, "p", access, secret);
  }

  // ------------------------------------------------------------------------------------------
  // A file with the header twice

  function Duplicate(profile: string, stale: string): string {
    Terminate([Header(profile), Header(profile), KeyLine(ACCESS, stale)], '\n')
  }

  lemma DuplicateLines(profile: string, stale: string)
    requires OneLine(profile) && IsKey(stale)
    ensures Lines(Duplicate(profile, stale)) == [Header(profile), Header(profile), KeyLine(ACCESS, stale)]
  {
    var h, line := Header(profile), KeyLine(ACCESS, stale);
    var lines := [h, h, line];
    DuplicateIsClean(profile, stale);
    LinesOfTerminated(lines);
    assert WithoutReturns(lines) == lines;
  }

  lemma DuplicateIsClean(profile: string, stale: string)
    requires OneLine(profile) && IsKey(stale)
    ensures OneLine(Header(profile)) && WithoutReturn(Header(profile)) == Header(profile)
    ensures OneLine(KeyLine(ACCESS, stale)) && WithoutReturn(KeyLine(ACCESS, stale)) == KeyLine(ACCESS, stale)
  {
    assert OneLine(ACCESS);
    TrimIdentityEnds(stale);
  }

  lemma DuplicateLater(profile: string, stale: string)
    requires OneLine(profile) && IsKey(stale)
    ensures Later(Duplicate(profile, stale), profile) == Keys(Some(stale), None)
  {
    var h, line := Header(profile), KeyLine(ACCESS, stale);
    var lines := [h, h, line];
    DuplicateLines(profile, stale);
    TrimHeader(profile);
    HeaderIs(lines, h, 0);
    TrimKeepsFirst(h, '[');
    assert lines[1..] == [h, line];
    NextIs(lines[1..], 0);
    assert After(Duplicate(profile, stale), h) == [h, line];
    ReadTwo(h, line, h, START);
    ReadAccessLine(stale, h, ReadLine(START, h, h));
  }

  lemma ReadTwo(one: string, two: string, header: string, st: Reading)
    ensures Read([one, two], header, st) == ReadLine(ReadLine(st, one, header), two, header)
  {
    var lines := [one, two];
    assert lines[1..] == [two] && lines[1..][1..] == [];
    assert Read([two], header, ReadLine(st, one, header)) == ReadLine(ReadLine(st, one, header), two, header);
  }

  /** Only the first of two sections of one name is rewritten; a value in the second wins on reading. */
  lemma SecondSectionWins(profile: string, stale: string, access: string, secret: string)
    requires OneLine(profile) && IsKey(stale) && IsKey(access) && IsKey(secret)
    ensures Profile(Edited(Duplicate(profile, stale), profile, access, secret), profile) == Some(Keys(Some(stale),
        Some(secret)))
  {
    DuplicateLater(profile, stale);
    WriteThenRead(Duplicate(profile, stale), profile, access, secret);
  }

  lemma TrimIdentityEnds(key: string)
    requires IsKey(key)
    ensures !IsSpace(key[|key| - 1])
  {
    var t := TrimStart(key);
    assert Trim(key) == TrimEnd(t);
  }
}
