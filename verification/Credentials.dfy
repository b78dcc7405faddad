/** The AWS credentials file: the section editor `aws_credentials_with_profile` (crates/rbs-setup/src/setup.rs)
    and the reader that has to agree with it, `profile_keys` (crates/rbs-store/src/creds.rs). */
module Credentials {
  import opened Options
  import opened Segments
  import opened TextLines
  import opened Trimming

  const ACCESS := "aws_access_key_id"
  const SECRET := "aws_secret_access_key"

  function Header(profile: string): string {
    "[" + profile + "]"
  }

  // ------------------------------------------------------------------------------------------
  // The reader

  datatype Keys = Keys(access: Option<string>, secret: Option<string>)

  datatype Reading = Reading(inSection: bool, found: bool, keys: Keys)

  const START := Reading(false, false, Keys(None, None))

  function ReadKey(keys: Keys, line: string): Keys {
    var i := Find(line, '=');
    if i == |line| then keys
    else
      var k, v := Trim(line[..i]), Trim(line[i + 1..]);
      if k == ACCESS && v != [] then keys.(access := Some(v))
      else if k == SECRET && v != [] then keys.(secret := Some(v))
      else keys
  }

  function ReadLine(st: Reading, line: string, header: string): Reading {
    var t := Trim(line);
    if StartsWith(t, '[') then st.(inSection := t == header, found := st.found || t == header)
    else if !st.inSection then st
    else st.(keys := ReadKey(st.keys, t))
  }

  function Read(lines: seq<string>, header: string, st: Reading): Reading {
    if lines == [] then st else Read(lines[1..], header, ReadLine(st, lines[0], header))
  }

  function ReadResult(st: Reading): Option<Keys> {
    if st.found then Some(st.keys) else None
  }

  /** What a reader of `profile` gets from the text. */
  function Profile(text: string, profile: string): Option<Keys> {
    ReadResult(Read(Lines(text), Header(profile), START))
  }

  method ProfileKeys(text: string, profile: string) returns (r: Option<Keys>)
    ensures r == Profile(text, profile)
  {
    var header := Header(profile);
    var inSection, found := false, false;
    var access: Option<string>, secret: Option<string> := None, None;
    var lines := Lines(text);
    var n := 0;
    assert lines[0..] == lines;
    while n < |lines|
      invariant n <= |lines|
      invariant Read(lines, header, START) == Read(lines[n..], header, Reading(inSection, found, Keys(access, secret)))
    {
      var line := Trim(lines[n]);
      assert lines[n..][1..] == lines[n + 1..];
      n := n + 1;
      if StartsWith(line, '[') {
        inSection := line == header;
        found := found || inSection;
        continue;
      }
      if !inSection {
        continue;
      }
      var i := Find(line, '=');
      if i < |line| {
        var k, v := Trim(line[..i]), Trim(line[i + 1..]);
        if k == ACCESS && v != [] {
          access := Some(v);
        } else if k == SECRET && v != [] {
          secret := Some(v);
        }
      }
    }
    return if found then Some(Keys(access, secret)) else None;
  }

  // ------------------------------------------------------------------------------------------
  // The editor

  function KeyLine(name: string, value: string): string {
    name + " = " + value
  }

  function Section(profile: string, access: string, secret: string): seq<string> {
    [Header(profile), KeyLine(ACCESS, access), KeyLine(SECRET, secret)]
  }

  function HeaderAt(lines: seq<string>, header: string): (start: nat)
    ensures start <= |lines|
    ensures forall k :: 0 <= k < start ==> Trim(lines[k]) != header
    ensures start < |lines| ==> Trim(lines[start]) == header
  {
    if lines == [] || Trim(lines[0]) == header then 0 else 1 + HeaderAt(lines[1..], header)
  }

  function NextSection(lines: seq<string>): (end: nat)
    ensures end <= |lines|
    ensures forall k :: 0 <= k < end ==> !StartsWith(TrimStart(lines[k]), '[')
    ensures end < |lines| ==> StartsWith(TrimStart(lines[end]), '[')
  {
    if lines == [] || StartsWith(TrimStart(lines[0]), '[') then 0 else 1 + NextSection(lines[1..])
  }

  /** The text a new section is appended to: a blank line is left after what is there. */
  function Opened(text: string): string {
    if text == [] then [] else text + (if text[|text| - 1] != '\n' then "\n" else "") + "\n"
  }

  /** The lines the editor puts before its section. */
  function Before(text: string, header: string): seq<string> {
    var lines := Lines(text);
    var start := HeaderAt(lines, header);
    if start == |lines| then Pieces(Opened(text), '\n') else lines[..start]
  }

  /** The lines it puts after: from the next header on. */
  function After(text: string, header: string): seq<string> {
    var lines := Lines(text);
    var start := HeaderAt(lines, header);
    if start == |lines| then [] else lines[start + 1..][NextSection(lines[start + 1..])..]
  }

  /** The edited text as one list of lines. */
  function Edited(text: string, profile: string, access: string, secret: string): string {
    var header := Header(profile);
    Terminate(Before(text, header) + Section(profile, access, secret) + After(text, header), '\n')
  }

  lemma HeaderIs(lines: seq<string>, header: string, start: nat)
    requires start <= |lines| && (forall k :: 0 <= k < start ==> Trim(lines[k]) != header)
    requires start < |lines| ==> Trim(lines[start]) == header
    ensures HeaderAt(lines, header) == start
  {
  }

  lemma NextIs(lines: seq<string>, end: nat)
    requires end <= |lines| && (forall k :: 0 <= k < end ==> !StartsWith(TrimStart(lines[k]), '['))
    requires end < |lines| ==> StartsWith(TrimStart(lines[end]), '[')
    ensures NextSection(lines) == end
  {
  }

  lemma OpenedIsTerminated(text: string)
    ensures Terminate(Pieces(Opened(text), '\n'), '\n') == Opened(text)
  {
    var whole := Opened(text);
    CutIsExact(whole, '\n');
    if text != [] {
      assert whole[|whole| - 1] == '\n';
    }
  }

  method FormatSection(profile: string, access: string, secret: string) returns (section: string)
    ensures section == Terminate(Section(profile, access, secret), '\n')
  {
    section := Header(profile) + "\n" + ACCESS + " = " + access + "\n" + SECRET + " = " + secret + "\n";
    ghost var lines := Section(profile, access, secret);
    assert lines[1..] == [lines[1], lines[2]] && lines[1..][1..] == [lines[2]] && lines[1..][1..][1..] == [];
    assert Terminate(lines[1..][1..], '\n') == lines[2] + "\n";
    assert Terminate(lines[1..], '\n') == lines[1] + "\n" + (lines[2] + "\n");
  }

  lemma ThreeParts(before: seq<string>, written: seq<string>, after: seq<string>)
    ensures Terminate(before + written + after, '\n') ==
      Terminate(before, '\n') + Terminate(written, '\n') + Terminate(after, '\n')
    ensures after == [] ==>
      Terminate(before + written + after, '\n') == Terminate(before, '\n') + Terminate(written, '\n')
  {
    TerminateConcat(before + written, after, '\n');
    TerminateConcat(before, written, '\n');
  }

  /** `for l in lines { out.push_str(l); out.push('\n') }` */
  method PushLines(out: string, lines: seq<string>) returns (r: string)
    ensures r == out + Terminate(lines, '\n')
  {
    r := out;
    var n := 0;
    assert lines[0..] == lines;
    while n < |lines|
      invariant n <= |lines|
      invariant out + Terminate(lines, '\n') == r + Terminate(lines[n..], '\n')
    {
      assert lines[n..][1..] == lines[n + 1..];
      assert Terminate(lines[n..], '\n') == lines[n] + ['\n'] + Terminate(lines[n + 1..], '\n');
      r := r + lines[n] + "\n";
      n := n + 1;
    }
  }

  method PositionOfHeader(lines: seq<string>, header: string) returns (start: nat)
    ensures start == HeaderAt(lines, header)
  {
    start := 0;
    while start < |lines| && Trim(lines[start]) != header
      invariant start <= |lines| && forall k :: 0 <= k < start ==> Trim(lines[k]) != header
    {
      start := start + 1;
    }
    HeaderIs(lines, header, start);
  }

  method PositionOfNext(lines: seq<string>) returns (end: nat)
    ensures end == NextSection(lines)
  {
    end := 0;
    while end < |lines| && !StartsWith(TrimStart(lines[end]), '[')
      invariant end <= |lines| && forall k :: 0 <= k < end ==> !StartsWith(TrimStart(lines[k]), '[')
    {
      end := end + 1;
    }
    NextIs(lines, end);
  }

  method AppendSection(existing: string, section: string) returns (out: string)
    ensures out == Opened(existing) + section
  {
    out := existing;
    if out != [] && out[|out| - 1] != '\n' {
      out := out + "\n";
    }
    if out != [] {
      out := out + "\n";
    }
    out := out + section;
  }

  /** The text with the lines of the section that starts at `start` replaced. */
  function Replaced(lines: seq<string>, start: nat, section: string): string
    requires start < |lines|
  {
    var rest := lines[start + 1..];
    Terminate(lines[..start], '\n') + section + Terminate(rest[NextSection(rest)..], '\n')
  }

  method ReplaceSection(lines: seq<string>, start: nat, section: string) returns (out: string)
    requires start < |lines|
    ensures out == Replaced(lines, start, section)
  {
    var end := PositionOfNext(lines[start + 1..]);
    out := PushLines("", lines[..start]);
    out := PushLines(out + section, lines[start + 1..][end..]);
  }

  lemma EditedParts(text: string, profile: string, access: string, secret: string)
    ensures Edited(text, profile, access, secret) ==
      EditedWith(text, Header(profile), Terminate(Section(profile, access, secret), '\n'))
  {
    var header := Header(profile);
    ThreeParts(Before(text, header), Section(profile, access, secret), After(text, header));
    OpenedIsTerminated(text);
  }

  /** Appended when the header is absent, in the place of the old section otherwise. */
  function EditedWith(text: string, header: string, section: string): string {
    var lines := Lines(text);
    var start := HeaderAt(lines, header);
    if start == |lines| then Opened(text) + section else Replaced(lines, start, section)
  }

  method EditWith(existing: string, header: string, section: string) returns (out: string)
    ensures out == EditedWith(existing, header, section)
  {
    var lines := Lines(existing);
    var start := PositionOfHeader(lines, header);
    if start == |lines| {
      out := AppendSection(existing, section);
    } else {
      out := ReplaceSection(lines, start, section);
    }
  }

  /** The written section, and what stands before and after it, as text. */
  lemma EditedText(text: string, profile: string, access: string, secret: string)
    ensures Edited(text, profile, access, secret) ==
      Terminate(Before(text, "[" + profile + "]"), '\n')
      + ("[" + profile + "]" + "\n" + "aws_access_key_id = " + access + "\n" + "aws_secret_access_key = " + secret
         + "\n")
      + Terminate(After(text, "[" + profile + "]"), '\n')
  {
    ThreeParts(Before(text, Header(profile)), Section(profile, access, secret), After(text, Header(profile)));
    SectionText(profile, access, secret);
  }

  lemma SectionText(profile: string, access: string, secret: string)
    ensures Terminate(Section(profile, access, secret), '\n') ==
      "[" + profile + "]" + "\n" + "aws_access_key_id = " + access + "\n" + "aws_secret_access_key = " + secret + "\n"
  {
    assert "aws_access_key_id" + " = " == "aws_access_key_id = ";
    assert "aws_secret_access_key" + " = " == "aws_secret_access_key = ";
    var s := Section(profile, access, secret);
    assert s[1..][1..] == [s[2]] && s[2..][1..] == [];
    assert Terminate(s[2..], '\n') == s[2] + ['\n'] + [];
    assert Terminate(s[1..], '\n') == s[1] + ['\n'] + Terminate(s[2..], '\n');
  }

  method WithProfile(existing: string, profile: string, access: string, secret: string) returns (out: string)
    ensures out == Edited(existing, profile, access, secret)
  {
    var section := FormatSection(profile, access, secret);
    out := EditWith(existing, Header(profile), section);
    EditedParts(existing, profile, access, secret);
  }

  // ------------------------------------------------------------------------------------------
  // Reading edited text

  lemma TrimStripsReturn(line: string)
    ensures Trim(WithoutReturn(line)) == Trim(line)
  {
    if line != [] && line[|line| - 1] == '\r' {
      TrimSnoc(line[..|line| - 1], '\r');
      assert line[..|line| - 1] + ['\r'] == line;
    }
  }

  lemma {:induction false} ReadConcat(a: seq<string>, b: seq<string>, header: string, st: Reading)
    ensures Read(a + b, header, st) == Read(b, header, Read(a, header, st))
    decreases |a|
  {
    if a == [] {
      assert a + b == b;
    } else {
      assert (a + b)[1..] == a[1..] + b;
      ReadConcat(a[1..], b, header, ReadLine(st, a[0], header));
    }
  }

  lemma {:induction false} ReadWithoutReturns(lines: seq<string>, header: string, st: Reading)
    ensures Read(WithoutReturns(lines), header, st) == Read(lines, header, st)
  {
    if lines != [] {
      TrimStripsReturn(lines[0]);
      ReadWithoutReturns(lines[1..], header, ReadLine(st, lines[0], header));
      assert WithoutReturns(lines)[1..] == WithoutReturns(lines[1..]);
    }
  }

  ghost predicate HasNo(lines: seq<string>, header: string) {
    forall i :: 0 <= i < |lines| ==> Trim(lines[i]) != header
  }

  lemma {:induction false} ReadOutside(lines: seq<string>, header: string, st: Reading)
    requires HasNo(lines, header) && !st.inSection
    ensures Read(lines, header, st) == st
  {
    if lines != [] {
      assert Trim(lines[0]) != header;
      assert HasNo(lines[1..], header) by {
        forall i | 0 <= i < |lines[1..]| ensures Trim(lines[1..][i]) != header {
          assert lines[1..][i] == lines[i + 1];
        }
      }
      ReadOutside(lines[1..], header, st);
    }
  }

  function Or<T>(a: Option<T>, b: Option<T>): Option<T> {
    if a.Some? then a else b
  }

  function Over(later: Keys, earlier: Keys): Keys {
    Keys(Or(later.access, earlier.access), Or(later.secret, earlier.secret))
  }

  /** Later lines override; what was read before shows through where they say nothing. */
  lemma {:induction false} ReadOverrides(lines: seq<string>, header: string, st: Reading)
    ensures var alone := Read(lines, header, Reading(st.inSection, false, Keys(None, None)));
      Read(lines, header, st) == Reading(alone.inSection, st.found || alone.found, Over(alone.keys, st.keys))
    decreases |lines|
  {
    if lines != [] {
      var blank := Reading(st.inSection, false, Keys(None, None));
      var a, b := ReadLine(st, lines[0], header), ReadLine(blank, lines[0], header);
      ReadOverrides(lines[1..], header, a);
      ReadOverrides(lines[1..], header, b);
    }
  }

  /** The section the editor starts after begins with a header, so what was read there does not depend on where
      the reader was. */
  lemma ReadFromHeader(lines: seq<string>, header: string, st: Reading, other: Reading)
    requires lines == [] || StartsWith(Trim(lines[0]), '[')
    requires st.found == other.found && st.keys == other.keys
    ensures ReadResult(Read(lines, header, st)) == ReadResult(Read(lines, header, other))
  {
  }
}
