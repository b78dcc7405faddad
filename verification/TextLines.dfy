/** Lines of a text as Rust's `str::lines` gives them: cut at '\n', one '\r' before it dropped, and an
    unterminated last line kept as it stands. */
module TextLines {
  import opened Segments

  function WithoutReturn(line: string): string {
    if line != [] && line[|line| - 1] == '\r' then line[..|line| - 1] else line
  }

  function WithoutReturns(lines: seq<string>): (r: seq<string>)
    ensures |r| == |lines|
    ensures forall i :: 0 <= i < |lines| ==> r[i] == WithoutReturn(lines[i])
  {
    seq(|lines|, i requires 0 <= i < |lines| => WithoutReturn(lines[i]))
  }

  function Lines(text: string): seq<string> {
    var last := Tail(text, '\n');
    WithoutReturns(Pieces(text, '\n')) + (if last == [] then [] else [last])
  }

  lemma LinesHaveNoNewline(text: string)
    ensures forall i :: 0 <= i < |Lines(text)| ==> '\n' !in Lines(text)[i]
  {
    CutIsExact(text, '\n');
    var ps := Pieces(text, '\n');
    assert forall i :: 0 <= i < |ps| ==> '\n' !in ps[i];
  }
}
