/**
 The peer link's line decoder: a character stream cut into chunks anywhere, whole
 lines out, a line that outgrows the cap dropped up to its newline.
 */
module FrameDecoder {
  import opened Common

  const MAX_FRAME: nat := 4 * 1024 * 1024

  // A parsed frame; what is inside it is not this module's.
  type Frame = nat

  // JSON, as far as the decoder sees it; `blank` is a line that trims to nothing.
  datatype Codec = Codec(encode: Frame -> string, parse: string -> Option<Frame>, blank: string -> bool)

  ghost predicate GoodCodec(c: Codec) {
    forall f: Frame :: c.parse(c.encode(f)) == Some(f) && '\n' !in c.encode(f) && !c.blank(c.encode(f))
  }

  function EncodeFrame(c: Codec, f: Frame): string {
    c.encode(f) + "\n"
  }

  // What a line yields.
  function FrameOf(c: Codec, line: string): seq<Frame> {
    if c.blank(line) then []
    else if c.parse(line).Some? then [c.parse(line).value] else []
  }

  function LineFrames(c: Codec, line: string, dropped: bool): seq<Frame> {
    if dropped then [] else FrameOf(c, line)
  }

  // ----- What a stream should yield ---------------------------------------------------

  // The first newline at or after `from`, or the end.
  function LineEnd(t: string, from: nat): (e: nat)
    requires from <= |t|
    ensures from <= e <= |t|
    decreases |t| - from
  {
    if from == |t| || t[from] == '\n' then from else LineEnd(t, from + 1)
  }

  // Where the unterminated last line starts.
  function TailStart(t: string, from: nat): (s: nat)
    requires from <= |t|
    ensures from <= s <= |t|
    decreases |t| - from
  {
    var e := LineEnd(t, from);
    if e == |t| then from else TailStart(t, e + 1)
  }

  // A chunk ended, before the line's newline had come, with more of it in than `cap`.
  ghost predicate Outgrown(start: nat, end: nat, ends: set<nat>, cap: nat) {
    exists p :: p in ends && start + cap < p <= end
  }

  // The frames of the whole lines from `from` on, in order, but for the outgrown.
  ghost function Expected(c: Codec, cap: nat, t: string, from: nat, ends: set<nat>): seq<Frame>
    requires from <= |t|
    decreases |t| - from
  {
    var e := LineEnd(t, from);
    if e == |t| then []
    else LineFrames(c, t[from..e], Outgrown(from, e, ends, cap)) + Expected(c, cap, t, e + 1, ends)
  }

  // How much of the stream had come at the end of each chunk.
  ghost function Ends(chunks: seq<string>): set<nat> {
    if chunks == [] then {} else Ends(chunks[..|chunks| - 1]) + {|Join(chunks)|}
  }

  // ----- The decoder --------------------------------------------------------------------

  datatype State = State(buffer: string, discarding: bool)

  // Takes the whole lines off the front.
  function Drain(c: Codec, buffer: string, discarding: bool): (seq<Frame>, State)
    decreases |buffer|
  {
    var e := LineEnd(buffer, 0);
    if e == |buffer| then ([], State(buffer, discarding))
    else
      var (frames, last) := Drain(c, buffer[e + 1..], false);
      (LineFrames(c, buffer[..e], discarding) + frames, last)
  }

  function Push(c: Codec, cap: nat, s: State, chunk: string): (seq<Frame>, State) {
    var (frames, last) := Drain(c, s.buffer + chunk, s.discarding);
    var discarding := last.discarding || |last.buffer| > cap;
    (frames, State(if discarding then "" else last.buffer, discarding))
  }

  function Decode(c: Codec, cap: nat, chunks: seq<string>): (seq<Frame>, State) {
    if chunks == [] then ([], State("", false))
    else
      var (before, s) := Decode(c, cap, chunks[..|chunks| - 1]);
      var (frames, s') := Push(c, cap, s, chunks[|chunks| - 1]);
      (before + frames, s')
  }

  // ----- The decoder yields what it should ------------------------------------------------

  // What the decoder holds of a stream `t`: its unterminated line, or nothing of it
  // once it has outgrown the cap.
  ghost predicate Tracks(s: State, cap: nat, t: string, ends: set<nat>) {
    var start := TailStart(t, 0);
    && (forall p :: p in ends ==> p <= |t|)
    && (s.discarding <==> Outgrown(start, |t|, ends, cap))
    && s.buffer == (if s.discarding then "" else t[start..])
    && |s.buffer| <= cap
  }

  lemma {:induction false} LineEndShift(t: string, k: nat, from: nat)
    requires k <= from <= |t|
    ensures LineEnd(t[k..], from - k) == LineEnd(t, from) - k
    decreases |t| - from
  {
    if from < |t| && t[from] != '\n' {
      LineEndShift(t, k, from + 1);
    }
  }

  lemma {:induction false} LineEndSkip(t: string, from: nat, to: nat)
    requires from <= to <= |t| && forall i :: from <= i < to ==> t[i] != '\n'
    ensures LineEnd(t, from) == LineEnd(t, to)
    decreases |t| - from
  {
    if from < to {
      LineEndSkip(t, from + 1, to);
    }
  }

  // Later chunk ends do not reach back into whole lines.
  lemma {:induction false} ExpectedAddsEnd(c: Codec, cap: nat, t: string, from: nat, ends: set<nat>, p: nat)
    requires from <= |t| <= p
    ensures Expected(c, cap, t, from, ends + {p}) == Expected(c, cap, t, from, ends)
    decreases |t| - from
  {
    var e := LineEnd(t, from);
    if e < |t| {
      assert Outgrown(from, e, ends + {p}, cap) <==> Outgrown(from, e, ends, cap);
      ExpectedAddsEnd(c, cap, t, e + 1, ends, p);
    }
  }

  lemma {:induction false} SameLineEnd(t: string, more: string, from: nat)
    requires from <= |t| && LineEnd(t, from) < |t|
    ensures LineEnd(t + more, from) == LineEnd(t, from)
    decreases |t| - from
  {
    if t[from] != '\n' {
      SameLineEnd(t, more, from + 1);
    }
  }

  lemma ExpectedStep(c: Codec, cap: nat, t: string, from: nat, ends: set<nat>)
    requires from <= |t|
    ensures var e := LineEnd(t, from);
      if e == |t| then Expected(c, cap, t, from, ends) == [] && TailStart(t, from) == from
      else
        && Expected(c, cap, t, from, ends)
           == LineFrames(c, t[from..e], Outgrown(from, e, ends, cap)) + Expected(c, cap, t, e + 1, ends)
        && TailStart(t, from) == TailStart(t, e + 1)
  {
  }

  // More of the stream only adds frames, those of the lines from the tail on.
  lemma {:induction false} ExpectedExtends(c: Codec, cap: nat, t: string, more: string, from: nat, ends: set<nat>)
    requires from <= |t|
    ensures TailStart(t, from) <= |t + more|
    ensures Expected(c, cap, t + more, from, ends)
         == Expected(c, cap, t, from, ends) + Expected(c, cap, t + more, TailStart(t, from), ends)
    decreases |t| - from
  {
    hide *;
    var e := LineEnd(t, from);
    ExpectedStep(c, cap, t, from, ends);
    if e < |t| {
      SameLineEnd(t, more, from);
      ExpectedStep(c, cap, t + more, from, ends);
      assert (t + more)[from..e] == t[from..e];
      ExpectedExtends(c, cap, t, more, e + 1, ends);
    }
  }

  lemma {:induction false} TailExtends(t: string, more: string, from: nat)
    requires from <= |t|
    ensures TailStart(t + more, from) == TailStart(t + more, TailStart(t, from))
    decreases |t| - from
  {
    var e := LineEnd(t, from);
    if e < |t| {
      SameLineEnd(t, more, from);
      TailExtends(t, more, e + 1);
    }
  }

  lemma DrainStep(c: Codec, buffer: string, discarding: bool)
    ensures var e := LineEnd(buffer, 0);
      if e == |buffer| then Drain(c, buffer, discarding) == ([], State(buffer, discarding))
      else
        && Drain(c, buffer, discarding).0 == LineFrames(c, buffer[..e], discarding) + Drain(c, buffer[e + 1..], false).0
        && Drain(c, buffer, discarding).1 == Drain(c, buffer[e + 1..], false).1
  {
  }

  // Dropping the whole line off the front of what is left of the stream.
  lemma DropLine(t: string, k: nat, e: nat)
    requires k <= e < |t|
    ensures t[k..][e - k + 1..] == t[e + 1..] && t[k..][..e - k] == t[k..e] && |t[k..]| == |t| - k
  {
  }

  // From a line start, with no chunk end past the cap, every whole line is yielded.
  lemma {:induction false} DrainWhole(c: Codec, cap: nat, t: string, start: nat, ends: set<nat>)
    requires start <= |t| && forall p :: p in ends ==> p <= start + cap
    ensures Drain(c, t[start..], false).0 == Expected(c, cap, t, start, ends)
    ensures Drain(c, t[start..], false).1 == State(t[TailStart(t, start)..], false)
    decreases |t| - start
  {
    var e := LineEnd(t, start);
    assert !Outgrown(start, e, ends, cap);
    hide *;
    LineEndShift(t, start, start);
    ExpectedStep(c, cap, t, start, ends);
    DrainStep(c, t[start..], false);
    if e < |t| {
      DropLine(t, start, e);
      DrainWhole(c, cap, t, e + 1, ends);
    }
  }

  // In the middle of an outgrown line, the rest of it is dropped and no more.
  lemma DrainDiscarding(c: Codec, cap: nat, t: string, start: nat, k: nat, ends: set<nat>)
    requires start <= k <= |t| && LineEnd(t, start) == LineEnd(t, k)
    requires (forall p :: p in ends ==> p <= k) && Outgrown(start, k, ends, cap)
    ensures Drain(c, t[k..], true).0 == Expected(c, cap, t, start, ends)
    ensures Drain(c, t[k..], true).1
         == if TailStart(t, start) == start then State(t[k..], true) else State(t[TailStart(t, start)..], false)
  {
    hide *;
    var e := LineEnd(t, start);
    LineEndShift(t, k, k);
    ExpectedStep(c, cap, t, start, ends);
    DrainStep(c, t[k..], true);
    if e < |t| {
      OutgrownLater(start, k, e, ends, cap);
      DropLine(t, k, e);
      LineFramesDropped(c, t[start..e], t[k..e]);
      DrainWhole(c, cap, t, e + 1, ends);
    }
  }

  lemma OutgrownLater(start: nat, k: nat, e: nat, ends: set<nat>, cap: nat)
    requires Outgrown(start, k, ends, cap) && k <= e
    ensures Outgrown(start, e, ends, cap)
  {
  }

  lemma LineFramesDropped(c: Codec, line: string, other: string)
    ensures LineFrames(c, line, true) == LineFrames(c, other, true)
  {
  }

  // Draining the held part of the stream and a chunk yields the lines from the tail on.
  lemma DrainHeld(c: Codec, cap: nat, s: State, t: string, ends: set<nat>, chunk: string)
    requires Tracks(s, cap, t, ends)
    ensures var all, start := t + chunk, TailStart(t, 0);
      && Drain(c, s.buffer + chunk, s.discarding).0 == Expected(c, cap, all, start, ends)
      && Drain(c, s.buffer + chunk, s.discarding).1
         == if s.discarding && TailStart(all, start) == start then State(chunk, true)
            else State(all[TailStart(all, start)..], false)
  {
    var all, start := t + chunk, TailStart(t, 0);
    if s.discarding {
      TailHasNoNewline(t, 0);
      assert forall i :: start <= i < |t| ==> all[i] == t[i];
      LineEndSkip(all, start, |t|);
      assert all[|t|..] == chunk && s.buffer + chunk == chunk;
      DrainDiscarding(c, cap, all, start, |t|, ends);
    } else {
      assert all[start..] == s.buffer + chunk;
      assert forall p :: p in ends ==> p <= start + cap;
      DrainWhole(c, cap, all, start, ends);
    }
  }

  // Each push yields exactly what the stream so far should yield and had not, and
  // leaves the decoder holding the unterminated line, never more than the cap.
  lemma PushTracks(c: Codec, cap: nat, s: State, t: string, ends: set<nat>, chunk: string)
    requires Tracks(s, cap, t, ends)
    ensures var (frames, s') := Push(c, cap, s, chunk);
      && Expected(c, cap, t + chunk, 0, ends + {|t + chunk|}) == Expected(c, cap, t, 0, ends) + frames
      && Tracks(s', cap, t + chunk, ends + {|t + chunk|})
  {
    var all, start := t + chunk, TailStart(t, 0);
    DrainHeld(c, cap, s, t, ends, chunk);
    ExpectedExtends(c, cap, t, chunk, 0, ends);
    TailExtends(t, chunk, 0);
    ExpectedAddsEnd(c, cap, all, 0, ends, |all|);
    hide Expected, Drain, TailStart;
    var start' := TailStart(all, 0);
    assert Outgrown(start', |all|, ends + {|all|}, cap) <==> Outgrown(start', |all|, ends, cap) || start' + cap < |all|;
  }

  lemma {:induction false} LineEndMeaning(t: string, from: nat)
    requires from <= |t|
    ensures forall i :: from <= i < LineEnd(t, from) ==> t[i] != '\n'
    ensures LineEnd(t, from) < |t| ==> t[LineEnd(t, from)] == '\n'
    decreases |t| - from
  {
    if from < |t| && t[from] != '\n' {
      LineEndMeaning(t, from + 1);
    }
  }

  lemma {:induction false} TailHasNoNewline(t: string, from: nat)
    requires from <= |t|
    ensures forall i :: TailStart(t, from) <= i < |t| ==> t[i] != '\n'
    decreases |t| - from
  {
    LineEndMeaning(t, from);
    if LineEnd(t, from) < |t| {
      TailHasNoNewline(t, LineEnd(t, from) + 1);
    }
  }

  // However a stream is cut into chunks, what is yielded is exactly the frames of its
  // whole lines, in order, but for each line that stood unterminated past the cap at
  // the end of some chunk; and what is held is the unterminated line, within the cap.
  lemma {:induction false} DecodesTheStream(c: Codec, cap: nat, chunks: seq<string>)
    ensures Decode(c, cap, chunks).0 == Expected(c, cap, Join(chunks), 0, Ends(chunks))
    ensures Tracks(Decode(c, cap, chunks).1, cap, Join(chunks), Ends(chunks))
  {
    if chunks != [] {
      var front := chunks[..|chunks| - 1];
      DecodesTheStream(c, cap, front);
      PushTracks(c, cap, Decode(c, cap, front).1, Join(front), Ends(front), chunks[|chunks| - 1]);
      JoinAppend(front, chunks[|chunks| - 1]);
      assert chunks == front + [chunks[|chunks| - 1]];
      hide Expected, Tracks, Push;
    }
  }

  // ----- Lines that fit -----------------------------------------------------------------

  predicate LinesFit(t: string, from: nat, cap: nat)
    requires from <= |t|
    decreases |t| - from
  {
    var e := LineEnd(t, from);
    e < |t| ==> e - from <= cap && LinesFit(t, e + 1, cap)
  }

  // Lines within the cap are yielded whatever the chunks: only an over-long line can
  // be lost.
  lemma {:induction false} FittingLinesArrive(c: Codec, cap: nat, t: string, from: nat, ends: set<nat>)
    requires from <= |t| && LinesFit(t, from, cap)
    ensures Expected(c, cap, t, from, ends) == Expected(c, cap, t, from, {})
    decreases |t| - from
  {
    var e := LineEnd(t, from);
    if e < |t| {
      FittingLinesArrive(c, cap, t, e + 1, ends);
    }
  }

  lemma ChunkingIsInvisible(c: Codec, cap: nat, chunks: seq<string>, others: seq<string>)
    requires Join(chunks) == Join(others) && LinesFit(Join(chunks), 0, cap)
    ensures Decode(c, cap, chunks).0 == Decode(c, cap, others).0
  {
    DecodesTheStream(c, cap, chunks);
    DecodesTheStream(c, cap, others);
    FittingLinesArrive(c, cap, Join(chunks), 0, Ends(chunks));
    FittingLinesArrive(c, cap, Join(others), 0, Ends(others));
  }

  // An over-long line arrives with its newline and is lost ahead of it.
  lemma OverlongDependsOnChunking(c: Codec, cap: nat, line: string)
    requires '\n' !in line && |line| > cap
    ensures Decode(c, cap, [line + "\n"]).0 == FrameOf(c, line)
    ensures Decode(c, cap, [line, "\n"]).0 == []
  {
    LineEndSkip(line + "\n", 0, |line|);
    assert (line + "\n")[..|line|] == line;
    assert LineEnd("", 0) == 0;
    LineEndSkip(line, 0, |line|);
    var s0 := State("", false);
    assert [line, "\n"][..1] == [line] && [line][..0] == [] && [line + "\n"][..0] == [];
    assert "" + line == line && "" + (line + "\n") == line + "\n" && "" + "\n" == "\n";
    DrainOneLine(c, line, false);
    DrainOneLine(c, "", true);
    assert Drain(c, line, false) == ([], State(line, false));
    assert Push(c, cap, s0, line) == ([], State("", true));
    assert Decode(c, cap, [line]) == ([], State("", true));
    assert "" + "\n" == "\n";
  }

  lemma DrainOneLine(c: Codec, line: string, discarding: bool)
    requires '\n' !in line
    ensures Drain(c, line + "\n", discarding) == (LineFrames(c, line, discarding), State("", false))
  {
    var t := line + "\n";
    LineEndSkip(t, 0, |line|);
    assert t[..|line|] == line && t[|line| + 1..] == "";
    DrainStep(c, t, discarding);
    DrainStep(c, "", false);
    assert LineFrames(c, line, discarding) + [] == LineFrames(c, line, discarding);
  }

  // ----- Round trip -----------------------------------------------------------------------

  function EncodeAll(c: Codec, frames: seq<Frame>): string {
    if frames == [] then "" else EncodeFrame(c, frames[0]) + EncodeAll(c, frames[1..])
  }

  // One encoded frame at the front of the rest.
  lemma EncodedLine(c: Codec, cap: nat, t: string, from: nat, f: Frame, ends: set<nat>)
    requires GoodCodec(c) && |c.encode(f)| <= cap
    requires from + |c.encode(f)| < |t|
    requires t[from..from + |c.encode(f)|] == c.encode(f) && t[from + |c.encode(f)|] == '\n'
    ensures var next := from + |c.encode(f)| + 1;
      && Expected(c, cap, t, from, ends) == [f] + Expected(c, cap, t, next, ends)
      && TailStart(t, from) == TailStart(t, next)
  {
    var line := c.encode(f);
    var e := from + |line|;
    assert c.parse(line) == Some(f);
    forall i | from <= i < e
      ensures t[i] != '\n'
    {
      assert t[from..e][i - from] == t[i];
      assert line[i - from] in line;
    }
    LineEndSkip(t, from, e);
    assert LineEnd(t, from) == e;
    assert FrameOf(c, line) == [f];
    ExpectedStep(c, cap, t, from, ends);
  }

  lemma CutLine(t: string, from: nat, line: string, rest: string)
    requires from <= |t| && t[from..] == line + "\n" + rest
    ensures from + |line| + 1 <= |t|
    ensures t[from..from + |line|] == line && t[from + |line|] == '\n' && t[from + |line| + 1..] == rest
  {
    var u := line + "\n" + rest;
    assert u[..|line|] == line && u[|line|] == '\n' && u[|line| + 1..] == rest;
    assert forall i :: 0 <= i < |u| ==> t[from + i] == u[i];
  }

  lemma {:induction false} EncodedLines(c: Codec, cap: nat, t: string, from: nat, frames: seq<Frame>, ends: set<nat>)
    requires GoodCodec(c) && forall f :: f in frames ==> |c.encode(f)| <= cap
    requires from <= |t| && t[from..] == EncodeAll(c, frames)
    ensures Expected(c, cap, t, from, ends) == frames
    ensures TailStart(t, from) == |t|
    decreases |frames|
  {
    hide GoodCodec, Expected;
    if frames == [] {
      ExpectedStep(c, cap, t, from, ends);
      assert from == |t|;
    } else {
      var line, rest := c.encode(frames[0]), EncodeAll(c, frames[1..]);
      var next := from + |line| + 1;
      CutLine(t, from, line, rest);
      hide EncodeAll;
      EncodedLine(c, cap, t, from, frames[0], ends);
      EncodedLines(c, cap, t, next, frames[1..], ends);
    }
  }

  // Encoded frames that fit come back, in order and alone, however the bytes arrive,
  // and leave the decoder as it was new.
  lemma RoundTrip(c: Codec, cap: nat, frames: seq<Frame>, chunks: seq<string>)
    requires GoodCodec(c) && forall f :: f in frames ==> |c.encode(f)| <= cap
    requires Join(chunks) == EncodeAll(c, frames)
    ensures Decode(c, cap, chunks) == (frames, State("", false))
  {
    DecodesTheStream(c, cap, chunks);
    assert EncodeAll(c, frames)[0..] == EncodeAll(c, frames);
    EncodedLines(c, cap, Join(chunks), 0, frames, Ends(chunks));
  }

  // What one round of the loop does to what is still to come.
  lemma DrainTakes(c: Codec, buffer: string, discarding: bool, frames: seq<Frame>)
    ensures var e, left := LineEnd(buffer, 0), Drain(c, buffer, discarding);
      if e == |buffer| then frames + left.0 == frames && left.1 == State(buffer, discarding)
      else
        var next := Drain(c, buffer[e + 1..], false);
        && left.1 == next.1
        && frames + left.0 == (if discarding then frames else frames + FrameOf(c, buffer[..e])) + next.0
  {
    DrainStep(c, buffer, discarding);
  }

  // ----- The object -------------------------------------------------------------------------

  class FrameDecoder {
    var buffer: string
    var discarding: bool
    const maxFrame: nat
    const codec: Codec
    // Every chunk pushed so far.
    ghost var pushed: seq<string>

    ghost predicate Valid()
      reads this
    {
      Tracks(State(buffer, discarding), maxFrame, Join(pushed), Ends(pushed))
    }

    // What has been yielded for the chunks so far.
    ghost function Yielded(): seq<Frame>
      reads this
    {
      Expected(codec, maxFrame, Join(pushed), 0, Ends(pushed))
    }

    constructor (codec: Codec, maxFrame: nat)
      ensures Valid() && pushed == [] && Yielded() == []
      ensures this.codec == codec && this.maxFrame == maxFrame
    {
      buffer, discarding, pushed := "", false, [];
      this.codec, this.maxFrame := codec, maxFrame;
    }

    // Takes the whole lines off the buffer.
    method TakeLines() returns (frames: seq<Frame>)
      modifies this
      ensures frames == Drain(codec, old(buffer), old(discarding)).0
      ensures State(buffer, discarding) == Drain(codec, old(buffer), old(discarding)).1
      ensures pushed == old(pushed)
    {
      frames := [];
      hide *;
      while true
        invariant pushed == old(pushed)
        invariant frames + Drain(codec, buffer, discarding).0 == Drain(codec, old(buffer), old(discarding)).0
        invariant Drain(codec, buffer, discarding).1 == Drain(codec, old(buffer), old(discarding)).1
        decreases |buffer|
      {
        DrainTakes(codec, buffer, discarding, frames);
        var newline := LineEnd(buffer, 0);
        if newline == |buffer| { break; }
        var line := buffer[..newline];
        buffer := buffer[newline + 1..];
        if discarding {
          discarding := false;
          continue;
        }
        frames := frames + FrameOf(codec, line);
      }
    }

    // Yields exactly what the longer stream should have yielded and had not.
    method PushChunk(chunk: string) returns (frames: seq<Frame>)
      requires Valid()
      modifies this
      ensures Valid() && pushed == old(pushed) + [chunk]
      ensures Yielded() == old(Yielded()) + frames
      ensures |buffer| <= maxFrame
    {
      PushTracks(codec, maxFrame, State(buffer, discarding), Join(pushed), Ends(pushed), chunk);
      assert (pushed + [chunk])[..|pushed|] == pushed;
      JoinAppend(pushed, chunk);
      ghost var result := Push(codec, maxFrame, State(buffer, discarding), chunk);
      pushed := pushed + [chunk];
      hide Expected, Drain, TailStart, Outgrown, Join;
      buffer := buffer + chunk;
      frames := TakeLines();
      if |buffer| > maxFrame {
        discarding := true;
      }
      if discarding {
        buffer := "";
      }
      assert (frames, State(buffer, discarding)) == result;
    }
  }
}
