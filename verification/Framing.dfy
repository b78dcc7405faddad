/** Newline-delimited framing: `encode` and `Decoder` of crates/rbs-proto/src/frame.rs and the reader
    loops over it in crates/rbs-client/src/transport.rs and crates/rbs-server/src/socket.rs. A JSON
    document is an opaque byte string; what the model yields is the line handed to the JSON parser. */
module Framing {
  import opened Octets
  import opened Options
  import opened Segments

  const NEWLINE: Byte := 10
  const MAX_FRAME_BYTES := 16 * 1024 * 1024

  predicate IsAsciiWhitespace(b: Byte) {
    b == 32 || b == 9 || b == 10 || b == 12 || b == 13
  }

  predicate IsBlank(line: seq<Byte>) {
    forall i :: 0 <= i < |line| ==> IsAsciiWhitespace(line[i])
  }

  function NonBlank(lines: seq<seq<Byte>>): seq<seq<Byte>> {
    if lines == [] then []
    else (if IsBlank(lines[0]) then [] else [lines[0]]) + NonBlank(lines[1..])
  }

  /** The frames of a byte stream: its non-blank newline-terminated lines. */
  function Frames(stream: seq<Byte>): seq<seq<Byte>> {
    NonBlank(Pieces(stream, NEWLINE))
  }

  function Unfinished(stream: seq<Byte>): seq<Byte> {
    Tail(stream, NEWLINE)
  }

  function Encode(doc: seq<Byte>): seq<Byte> {
    doc + [NEWLINE]
  }

  lemma {:induction false} NonBlankConcat(a: seq<seq<Byte>>, b: seq<seq<Byte>>)
    ensures NonBlank(a + b) == NonBlank(a) + NonBlank(b)
  {
    if a == [] {
      assert a + b == b;
    } else {
      var line, rest := a[0], a[1..];
      NonBlankConcat(rest, b);
      NonBlankMore(line, rest, b);
      assert a == [line] + rest && a + b == [line] + (rest + b);
    }
  }

  lemma NonBlankMore(line: seq<Byte>, rest: seq<seq<Byte>>, b: seq<seq<Byte>>)
    requires NonBlank(rest + b) == NonBlank(rest) + NonBlank(b)
    ensures NonBlank([line] + (rest + b)) == NonBlank([line] + rest) + NonBlank(b)
  {
    NonBlankFirst(line, rest);
    NonBlankFirst(line, rest + b);
    Regroup(NonBlank([line]), NonBlank(rest), NonBlank(b));
  }

  lemma NonBlankFirst(line: seq<Byte>, rest: seq<seq<Byte>>)
    ensures NonBlank([line] + rest) == NonBlank([line]) + NonBlank(rest)
    ensures NonBlank([line]) == if IsBlank(line) then [] else [line]
  {
    assert ([line] + rest)[1..] == rest && [line][1..] == [];
  }

  lemma FramesResume(a: seq<Byte>, b: seq<Byte>)
    ensures Frames(a + b) == Frames(a) + Frames(Unfinished(a) + b)
    ensures Unfinished(a + b) == Unfinished(Unfinished(a) + b)
  {
    CutResumes(a, b, NEWLINE);
    NonBlankConcat(Pieces(a, NEWLINE), Pieces(Unfinished(a) + b, NEWLINE));
  }

  lemma FramesOfLine(line: seq<Byte>, rest: seq<Byte>)
    requires NEWLINE !in line
    ensures Frames(line + [NEWLINE] + rest) == (if IsBlank(line) then [] else [line]) + Frames(rest)
    ensures Unfinished(line + [NEWLINE] + rest) == Unfinished(rest)
  {
    PiecesOfOne(line, rest, NEWLINE);
    NonBlankFirst(line, Pieces(rest, NEWLINE));
  }

  lemma FramesFirstLine(buf: seq<Byte>, pos: nat)
    requires pos < |buf| && buf[pos] == NEWLINE && NEWLINE !in buf[..pos]
    ensures Frames(buf) == (if IsBlank(buf[..pos]) then [] else [buf[..pos]]) + Frames(buf[pos + 1..])
    ensures Unfinished(buf) == Unfinished(buf[pos + 1..])
  {
    FramesOfLine(buf[..pos], buf[pos + 1..]);
    assert buf == buf[..pos] + [NEWLINE] + buf[pos + 1..];
  }

  /** Line by line: a line is a frame unless it is empty or white space (tab, form feed, return, space) throughout. */
  lemma FramesByLine(line: seq<Byte>, rest: seq<Byte>)
    requires 10 !in line
    ensures Frames([]) == []
    ensures Frames(line + [10] + rest) ==
      (if forall b :: b in line ==> b == 9 || b == 12 || b == 13 || b == 32 then [] else [line]) + Frames(rest)
    ensures Frames(line) == []
  {
    FramesOfLine(line, rest);
    NoPieces(line, NEWLINE);
    if forall b :: b in line ==> b == 9 || b == 12 || b == 13 || b == 32 {
      assert IsBlank(line) by {
        forall i | 0 <= i < |line| ensures IsAsciiWhitespace(line[i]) {
          assert line[i] in line;
        }
      }
    }
  }

  class Decoder {
    var buf: seq<Byte>

    constructor ()
      ensures buf == []
    {
      buf := [];
    }

    method Push(bytes: seq<Byte>) returns (ok: bool)
      modifies this
      ensures ok <==> |old(buf)| + |bytes| <= 16_777_216
      ensures buf == if ok then old(buf) + bytes else old(buf)
    {
      if |buf| + |bytes| > MAX_FRAME_BYTES {
        return false;
      }
      buf := buf + bytes;
      return true;
    }

    method NextFrame() returns (frame: Option<seq<Byte>>)
      modifies this
      ensures frame.Some? ==> Frames(old(buf)) == [frame.value] + Frames(buf)
      ensures frame.None? ==> Frames(old(buf)) == [] && buf == Unfinished(old(buf)) && Frames(buf) == []
      ensures Unfinished(buf) == Unfinished(old(buf))
    {
      while true
        invariant Frames(buf) == Frames(old(buf)) && Unfinished(buf) == Unfinished(old(buf))
        decreases |buf|
      {
        var pos := Position();
        if pos == |buf| {
          NoPieces(buf, NEWLINE);
          return None;
        }
        FramesFirstLine(buf, pos);
        var line := buf[..pos];
        buf := buf[pos + 1..];
        if IsBlank(line) {
          continue;
        }
        return Some(line);
      }
    }

    method Position() returns (pos: nat)
      ensures pos == Find(buf, NEWLINE)
    {
      pos := 0;
      while pos < |buf| && buf[pos] != NEWLINE
        invariant pos <= |buf| && forall k :: 0 <= k < pos ==> buf[k] != NEWLINE
      {
        pos := pos + 1;
      }
      FindIn(buf, NEWLINE, pos);
    }
  }

  // ------------------------------------------------------------------------------------------
  // The reader loops

  function Concat(chunks: seq<seq<Byte>>): seq<Byte> {
    if chunks == [] then [] else Concat(chunks[..|chunks| - 1]) + chunks[|chunks| - 1]
  }

  lemma ConcatSnoc(chunks: seq<seq<Byte>>, c: seq<Byte>)
    ensures Concat(chunks + [c]) == Concat(chunks) + c
  {
    assert (chunks + [c])[..|chunks|] == chunks;
  }

  /** Every read fits next to the line it continues. */
  ghost predicate ReadsFit(chunks: seq<seq<Byte>>) {
    forall i :: 0 <= i < |chunks| ==> ReadFits(chunks, i)
  }

  ghost predicate ReadFits(chunks: seq<seq<Byte>>, i: nat)
    requires i < |chunks|
  {
    |Unfinished(Concat(chunks[..i]))| + |chunks[i]| <= MAX_FRAME_BYTES
  }

  datatype Ending = Clean | Truncated | TooLarge

  /** Between reads: what was handed out, followed by what the buffer still holds, is the stream so far. */
  ghost predicate Reading(chunks: seq<seq<Byte>>, i: nat, frames: seq<seq<Byte>>, buf: seq<Byte>) {
    && i <= |chunks|
    && Frames(Concat(chunks[..i])) == frames + Frames(buf)
    && Unfinished(buf) == Unfinished(Concat(chunks[..i]))
    && ReadsFit(chunks[..i])
  }

  lemma HandOut(chunks: seq<seq<Byte>>, i: nat, frames: seq<seq<Byte>>, before: seq<Byte>, frame: seq<Byte>,
                after: seq<Byte>)
    requires Reading(chunks, i, frames, before)
    requires Frames(before) == [frame] + Frames(after) && Unfinished(after) == Unfinished(before)
    ensures Reading(chunks, i, frames + [frame], after)
  {
    assert frames + ([frame] + Frames(after)) == frames + [frame] + Frames(after);
  }

  lemma FitsInPrefix(chunks: seq<seq<Byte>>, i: nat, k: nat)
    requires k < i <= |chunks|
    ensures ReadFits(chunks[..i], k) == ReadFits(chunks, k)
  {
    assert chunks[..i][..k] == chunks[..k];
  }

  lemma ReadMore(chunks: seq<seq<Byte>>, i: nat, frames: seq<seq<Byte>>, buf: seq<Byte>)
    requires Reading(chunks, i, frames, buf) && i < |chunks| && Frames(buf) == []
    requires buf == Unfinished(buf) && |buf| + |chunks[i]| <= MAX_FRAME_BYTES
    ensures Reading(chunks, i + 1, frames, buf + chunks[i])
  {
    assert chunks[..i + 1] == chunks[..i] + [chunks[i]];
    ConcatSnoc(chunks[..i], chunks[i]);
    FramesResume(Concat(chunks[..i]), chunks[i]);
    var now := chunks[..i + 1];
    forall k | 0 <= k < |now| ensures ReadFits(now, k) {
      FitsInPrefix(chunks, i + 1, k);
      if k < i {
        FitsInPrefix(chunks, i, k);
      }
    }
  }

  /** Drain, read, push - until the input ends or a read does not fit. `closing` is the client's rule that
      input must not end inside a line. Any split of the stream into reads gives the same frames. */
  method Receive(chunks: seq<seq<Byte>>, closing: bool) returns (frames: seq<seq<Byte>>, ending: Ending, read: nat)
    ensures read <= |chunks|
    ensures frames == Frames(Concat(chunks[..read]))
    ensures ReadsFit(chunks[..read])
    ensures !ending.TooLarge? ==> read == |chunks| && ReadsFit(chunks)
    ensures ending.TooLarge? ==> read < |chunks| && !ReadFits(chunks, read)
    ensures ending.Truncated? <==> closing && read == |chunks| && Unfinished(Concat(chunks)) != []
  {
    var dec := new Decoder();
    frames := [];
    read := 0;
    var i := 0;
    while true
      invariant Reading(chunks, i, frames, dec.buf)
      decreases |chunks| - i, |Frames(dec.buf)|
    {
      ghost var before := dec.buf;
      var frame := dec.NextFrame();
      if frame.Some? {
        HandOut(chunks, i, frames, before, frame.value, dec.buf);
        frames := frames + [frame.value];
        continue;
      }
      assert Reading(chunks, i, frames, dec.buf);
      read := i;
      if i == |chunks| {
        assert chunks[..i] == chunks;
        ending := if closing && |dec.buf| > 0 then Truncated else Clean;
        return;
      }
      if |dec.buf| + |chunks[i]| <= MAX_FRAME_BYTES {
        ReadMore(chunks, i, frames, dec.buf);
      }
      var ok := dec.Push(chunks[i]);
      if !ok {
        ending := TooLarge;
        return;
      }
      i := i + 1;
    }
  }

  predicate IsDocument(doc: seq<Byte>) {
    NEWLINE !in doc && !IsBlank(doc)
  }

  function EncodeAll(docs: seq<seq<Byte>>): seq<Byte> {
    if docs == [] then [] else Encode(docs[0]) + EncodeAll(docs[1..])
  }

  /** Documents sent one after the other are exactly the frames received, with nothing pending. */
  lemma {:induction false} EncodeFrames(docs: seq<seq<Byte>>)
    requires forall i :: 0 <= i < |docs| ==> IsDocument(docs[i])
    ensures Frames(EncodeAll(docs)) == docs && Unfinished(EncodeAll(docs)) == []
  {
    if docs != [] {
      EncodeFrames(docs[1..]);
      PiecesOfOne(docs[0], EncodeAll(docs[1..]), NEWLINE);
      assert Encode(docs[0]) + EncodeAll(docs[1..]) == docs[0] + [NEWLINE] + EncodeAll(docs[1..]);
      NonBlankFirst(docs[0], Pieces(EncodeAll(docs[1..]), NEWLINE));
    }
  }

  lemma {:induction false} UnfinishedIsShort(docs: seq<seq<Byte>>, n: nat, longest: nat)
    requires forall i :: 0 <= i < |docs| ==> IsDocument(docs[i]) && |docs[i]| <= longest
    requires n <= |EncodeAll(docs)|
    ensures |Unfinished(EncodeAll(docs)[..n])| <= longest
  {
    var got := EncodeAll(docs)[..n];
    if docs == [] {
      NoPieces(got, NEWLINE);
    } else if n <= |docs[0]| {
      assert got == docs[0][..n];
      NoPieces(got, NEWLINE);
    } else {
      var rest := EncodeAll(docs[1..])[..n - |docs[0]| - 1];
      assert got == docs[0] + [NEWLINE] + rest;
      PiecesOfOne(docs[0], rest, NEWLINE);
      UnfinishedIsShort(docs[1..], n - |docs[0]| - 1, longest);
    }
  }

  lemma {:induction false} ConcatPrefix(chunks: seq<seq<Byte>>, i: nat)
    requires i <= |chunks|
    ensures |Concat(chunks[..i])| <= |Concat(chunks)|
    ensures Concat(chunks[..i]) == Concat(chunks)[..|Concat(chunks[..i])|]
    decreases |chunks|
  {
    if i == |chunks| {
      assert chunks[..i] == chunks;
    } else {
      var front := chunks[..|chunks| - 1];
      assert front[..i] == chunks[..i];
      ConcatPrefix(front, i);
    }
  }

  /** Documents that leave room for one read arrive, however the transport cuts the stream into reads:
      no read overflows the buffer, the frames are the documents and nothing is left over. */
  lemma TransmissionArrives(docs: seq<seq<Byte>>, chunks: seq<seq<Byte>>, room: nat)
    requires Concat(chunks) == EncodeAll(docs)
    requires forall i :: 0 <= i < |docs| ==> IsDocument(docs[i]) && |docs[i]| + room <= MAX_FRAME_BYTES
    requires forall i :: 0 <= i < |chunks| ==> |chunks[i]| <= room
    ensures ReadsFit(chunks) && Frames(Concat(chunks)) == docs && Unfinished(Concat(chunks)) == []
  {
    EncodeFrames(docs);
    forall i | 0 <= i < |chunks| ensures ReadFits(chunks, i) {
      if docs == [] {
        EmptyReadFits(chunks, i);
      } else {
        ShortReadFits(docs, chunks, room, i);
      }
    }
  }

  lemma EmptyReadFits(chunks: seq<seq<Byte>>, i: nat)
    requires Concat(chunks) == [] && i < |chunks|
    ensures ReadFits(chunks, i)
  {
    EmptyChunk(chunks, i);
    NoPieces(Concat(chunks[..i]), NEWLINE);
  }

  lemma EmptyChunk(chunks: seq<seq<Byte>>, i: nat)
    requires Concat(chunks) == [] && i < |chunks|
    ensures Concat(chunks[..i]) == [] && chunks[i] == []
  {
    var now := chunks[..i + 1];
    ConcatPrefix(chunks, i + 1);
    assert |Concat(now)| == 0;
    ConcatSnoc(chunks[..i], chunks[i]);
    assert now == chunks[..i] + [chunks[i]];
  }

  lemma ShortReadFits(docs: seq<seq<Byte>>, chunks: seq<seq<Byte>>, room: nat, i: nat)
    requires Concat(chunks) == EncodeAll(docs) && docs != [] && i < |chunks| && |chunks[i]| <= room
    requires forall i :: 0 <= i < |docs| ==> IsDocument(docs[i]) && |docs[i]| + room <= MAX_FRAME_BYTES
    ensures ReadFits(chunks, i)
  {
    ConcatPrefix(chunks, i);
    assert |docs[0]| + room <= MAX_FRAME_BYTES;
    UnfinishedIsShort(docs, |Concat(chunks[..i])|, MAX_FRAME_BYTES - room);
  }
}
