/**
 The extension host's PTY output buffers: bounded lists of chunks, trimmed a chunk at
 a time, read back whole, once, or from a mark.
 */
module PtyBuffers {
  import opened Common

  const MAX_BUFFER_CHARS: nat := 1_000_000

  type PtyId = nat

  // Drops whole chunks from the front while over the cap, and cuts the one left.
  function Trim(chunks: seq<string>): seq<string> {
    if |Join(chunks)| <= MAX_BUFFER_CHARS then chunks
    else if |chunks| > 1 then Trim(chunks[1..])
    else [Last(chunks[0], MAX_BUFFER_CHARS)]
  }

  // What is held of the chunks that came, one by one.
  function Held(chunks: seq<string>): seq<string> {
    if chunks == [] then [] else Trim(Held(chunks[..|chunks| - 1]) + [chunks[|chunks| - 1]])
  }

  // ----- What is held is the end of the stream -----------------------------------------

  lemma {:induction false} TrimIsSuffix(chunks: seq<string>)
    ensures IsSuffix(Join(Trim(chunks)), Join(chunks))
    ensures |Join(Trim(chunks))| <= MAX_BUFFER_CHARS
  {
    if |Join(chunks)| > MAX_BUFFER_CHARS {
      if |chunks| > 1 {
        TrimIsSuffix(chunks[1..]);
      } else {
        JoinOne(Last(chunks[0], MAX_BUFFER_CHARS));
        JoinOne(chunks[0]);
        assert chunks == [chunks[0]];
      }
    }
  }

  lemma {:induction false} HeldIsSuffix(chunks: seq<string>)
    ensures IsSuffix(Join(Held(chunks)), Join(chunks))
    ensures |Join(Held(chunks))| <= MAX_BUFFER_CHARS
  {
    if chunks != [] {
      var front, last := chunks[..|chunks| - 1], chunks[|chunks| - 1];
      HeldIsSuffix(front);
      TrimIsSuffix(Held(front) + [last]);
      JoinConcat(Held(front), [last]);
      JoinConcat(front, [last]);
      JoinOne(last);
      assert chunks == front + [last];
    }
  }

  // Trimming spares any whole chunks at the end that fit.
  lemma {:induction false} TrimSpares(p: seq<string>, q: seq<string>) returns (p': seq<string>)
    requires q != [] && |Join(q)| <= MAX_BUFFER_CHARS
    ensures Trim(p + q) == p' + q
    decreases |p|
  {
    if |Join(p + q)| <= MAX_BUFFER_CHARS {
      p' := p;
    } else {
      assert p == [] ==> p + q == q;
      assert (p + q)[1..] == p[1..] + q;
      p' := TrimSpares(p[1..], q);
    }
  }

  // Whatever came last, in whole chunks, is held whole so long as it fits.
  lemma {:induction false} RecentIsHeld(chunks: seq<string>, j: nat) returns (p: seq<string>)
    requires j <= |chunks| && |Join(chunks[j..])| <= MAX_BUFFER_CHARS
    ensures Held(chunks) == p + chunks[j..]
    decreases |chunks|
  {
    if j == |chunks| {
      p := Held(chunks);
    } else {
      var front, last := chunks[..|chunks| - 1], chunks[|chunks| - 1];
      assert chunks[j..] == front[j..] + [last];
      JoinConcat(front[j..], [last]);
      var p0 := RecentIsHeld(front, j);
      assert Held(front) + [last] == p0 + chunks[j..];
      p := TrimSpares(p0, chunks[j..]);
    }
  }

  // ----- Exactly what is held -----------------------------------------------------------

  // The longest stretch of whole chunks at the end that fits the cap starts at `j`.
  ghost predicate FitsFrom(chunks: seq<string>, j: nat) {
    && j <= |chunks| && |Join(chunks[j..])| <= MAX_BUFFER_CHARS
    && (j > 0 ==> |Join(chunks[j - 1..])| > MAX_BUFFER_CHARS)
  }

  // One chunk too long for the cap, with nothing after it.
  ghost predicate CutAt(chunks: seq<string>, j: nat) {
    0 < j <= |chunks| && |chunks[j - 1]| > MAX_BUFFER_CHARS && Join(chunks[j..]) == ""
  }

  lemma JoinShrinks(chunks: seq<string>, i: nat, j: nat)
    requires i <= j <= |chunks|
    ensures |Join(chunks[j..])| <= |Join(chunks[i..])|
  {
    assert chunks[i..] == chunks[i..j] + chunks[j..];
    JoinConcat(chunks[i..j], chunks[j..]);
  }

  lemma FitsOnce(chunks: seq<string>, i: nat, j: nat)
    requires FitsFrom(chunks, i) && FitsFrom(chunks, j)
    ensures i == j
  {
    if i < j {
      JoinShrinks(chunks, i, j - 1);
    } else if j < i {
      JoinShrinks(chunks, j, i - 1);
    }
  }

  lemma {:induction false} FirstFit(chunks: seq<string>, j: nat) returns (i: nat)
    requires j <= |chunks| && |Join(chunks[j..])| <= MAX_BUFFER_CHARS
    ensures i <= j && FitsFrom(chunks, i)
    decreases j
  {
    if j == 0 || |Join(chunks[j - 1..])| > MAX_BUFFER_CHARS {
      i := j;
    } else {
      i := FirstFit(chunks, j - 1);
    }
  }

  // Trimming drops whole chunks up to where the rest fits.
  lemma {:induction false} TrimDrops(chunks: seq<string>, i: nat, j: nat)
    requires i <= j < |chunks| && FitsFrom(chunks, j)
    ensures Trim(chunks[i..]) == chunks[j..]
    decreases j - i
  {
    if i < j {
      JoinShrinks(chunks, i, j - 1);
      assert chunks[i..][1..] == chunks[i + 1..];
      TrimDrops(chunks, i + 1, j);
    }
  }

  lemma {:induction false} TrimCuts(before: seq<string>, x: string)
    requires |x| > MAX_BUFFER_CHARS
    ensures Trim(before + [x]) == [Last(x, MAX_BUFFER_CHARS)]
    decreases |before|
  {
    var all := before + [x];
    JoinConcat(before, [x]);
    JoinOne(x);
    if before != [] {
      assert all[1..] == before[1..] + [x];
      TrimCuts(before[1..], x);
    }
  }

  // What is held is exactly the longest stretch of whole chunks at the end that fits; but of a
  // chunk that is itself too long, while nothing has come after it, the end that does.
  lemma {:induction false} HeldIs(chunks: seq<string>, j: nat)
    requires FitsFrom(chunks, j)
    ensures Held(chunks) ==
      if CutAt(chunks, j) then [Last(chunks[j - 1], MAX_BUFFER_CHARS)] + chunks[j..] else chunks[j..]
    decreases |chunks|
  {
    if chunks != [] {
      var front, x := chunks[..|chunks| - 1], chunks[|chunks| - 1];
      assert chunks == front + [x];
      if |x| > MAX_BUFFER_CHARS {
        TrimCuts(Held(front), x);
        LongLast(chunks, j);
      } else {
        HeldStep(chunks, j);
      }
    }
  }

  lemma LongLast(chunks: seq<string>, j: nat)
    requires chunks != [] && |chunks[|chunks| - 1]| > MAX_BUFFER_CHARS && FitsFrom(chunks, j)
    ensures j == |chunks| && CutAt(chunks, j) && chunks[j..] == []
  {
    var n := |chunks|;
    assert chunks[n - 1..] == [chunks[n - 1]];
    JoinOne(chunks[n - 1]);
    if j < n {
      JoinShrinks(chunks, j, n - 1);
    }
  }

  lemma FitsNotAtEnd(chunks: seq<string>, j: nat)
    requires chunks != [] && |chunks[|chunks| - 1]| <= MAX_BUFFER_CHARS && FitsFrom(chunks, j)
    ensures j < |chunks| && |Join(chunks[..|chunks| - 1][j..])| <= |Join(chunks[j..])|
    ensures Join(chunks[j..]) == Join(chunks[..|chunks| - 1][j..]) + chunks[|chunks| - 1]
  {
    var n := |chunks|;
    assert chunks[n - 1..] == [chunks[n - 1]];
    JoinOne(chunks[n - 1]);
    assert chunks[j..] == chunks[..n - 1][j..] + [chunks[n - 1]];
    JoinAppend(chunks[..n - 1][j..], chunks[n - 1]);
  }

  // The last chunk fits: what was held, and it, lose the chunks that no longer do.
  lemma {:induction false} HeldStep(chunks: seq<string>, j: nat)
    requires chunks != [] && |chunks[|chunks| - 1]| <= MAX_BUFFER_CHARS && FitsFrom(chunks, j)
    ensures Held(chunks) ==
      if CutAt(chunks, j) then [Last(chunks[j - 1], MAX_BUFFER_CHARS)] + chunks[j..] else chunks[j..]
    decreases |chunks|, 0
  {
    hide Join, Trim, Held;
    var front, x := chunks[..|chunks| - 1], chunks[|chunks| - 1];
    FitsNotAtEnd(chunks, j);
    var i := FirstFit(front, j);
    HeldIs(front, i);
    assert chunks == front + [x];
    HeldAppend(front, x);
    if CutAt(front, i) {
      AfterCut(chunks, i, j);
    } else {
      assert front[i..] + [x] == chunks[i..];
      TrimDrops(chunks, i, j);
      if CutAt(chunks, j) {
        assert FitsFrom(front, j) by { CutFits(chunks, j); }
        FitsOnce(front, i, j);
        CutFits(chunks, j);
        assert false;
      }
    }
  }

  lemma CutFits(chunks: seq<string>, j: nat)
    requires CutAt(chunks, j) && j < |chunks|
    ensures FitsFrom(chunks[..|chunks| - 1], j) && CutAt(chunks[..|chunks| - 1], j)
  {
    var front := chunks[..|chunks| - 1];
    assert chunks[j..] == front[j..] + [chunks[|chunks| - 1]];
    JoinAppend(front[j..], chunks[|chunks| - 1]);
    assert front[j - 1..][1..] == front[j..];
  }

  // A cut chunk was held, at the whole of the cap: it goes as soon as anything comes.
  lemma AfterCut(chunks: seq<string>, i: nat, j: nat)
    requires chunks != [] && FitsFrom(chunks, j)
    requires var front := chunks[..|chunks| - 1];
      |chunks[|chunks| - 1]| <= MAX_BUFFER_CHARS && CutAt(front, i)
    ensures var cut := [Last(chunks[..|chunks| - 1][i - 1], MAX_BUFFER_CHARS)] + chunks[..|chunks| - 1][i..];
      Trim(cut + [chunks[|chunks| - 1]]) ==
        if CutAt(chunks, j) then [Last(chunks[j - 1], MAX_BUFFER_CHARS)] + chunks[j..] else chunks[j..]
  {
    var front, x := chunks[..|chunks| - 1], chunks[|chunks| - 1];
    var head := Last(front[i - 1], MAX_BUFFER_CHARS);
    var held := [head] + front[i..] + [x];
    assert chunks[i..] == front[i..] + [x] && held[1..] == chunks[i..];
    JoinAppend(front[i..], x);
    assert Join(chunks[i..]) == x;
    assert |Join(held)| == |head| + |x|;
    assert chunks[i - 1..][1..] == chunks[i..];
    assert FitsFrom(chunks, i);
    FitsOnce(chunks, i, j);
    assert x == "" ==> held == [Last(chunks[j - 1], MAX_BUFFER_CHARS)] + chunks[j..];
  }

  // ----- The buffers ------------------------------------------------------------------------

  datatype Entry = Entry(
    replayChunks: seq<string>, replayChars: int, scrollbackChunks: seq<string>, scrollbackChars: int,
    receivedChars: int, alive: bool, exitCode: Option<int>)

  function NewEntry(alive: bool, exitCode: Option<int>): Entry {
    Entry([], 0, [], 0, 0, alive, exitCode)
  }

  // Every chunk of the current generation, and how many had come when it was last
  // replayed.
  datatype Log = Log(chunks: seq<string>, replayed: nat)

  ghost predicate EntryOk(e: Entry, l: Log) {
    && l.replayed <= |l.chunks|
    && e.scrollbackChunks == Held(l.chunks)
    && e.scrollbackChars == |Join(e.scrollbackChunks)|
    && e.receivedChars == |Join(l.chunks)|
    && e.replayChunks == Held(l.chunks[l.replayed..])
    && e.replayChars == |Join(e.replayChunks)|
  }

  datatype Op = Write(data: string) | Replay

  function After(l: Log, op: Op): Log {
    match op
    case Write(data) => Log(l.chunks + [data], l.replayed)
    case Replay => Log(l.chunks, |l.chunks|)
  }

  // What a replay answers: what came since the last one and is still held.
  function Answer(l: Log): Option<string>
    requires l.replayed <= |l.chunks|
  {
    if l.replayed == |l.chunks| then None else Some(Join(Held(l.chunks[l.replayed..])))
  }

  method TrimChunks(chunks: seq<string>, totalChars: int) returns (kept: seq<string>, total: int)
    requires totalChars == |Join(chunks)|
    ensures kept == Trim(chunks) && total == |Join(kept)|
  {
    kept, total := chunks, totalChars;
    while total > MAX_BUFFER_CHARS && |kept| > 1
      invariant total == |Join(kept)| && Trim(kept) == Trim(chunks)
      decreases |kept|
    {
      total := total - |kept[0]|;
      kept := kept[1..];
    }
    if total > MAX_BUFFER_CHARS {
      JoinOne(Last(kept[0], MAX_BUFFER_CHARS));
      JoinOne(kept[0]);
      assert kept == [kept[0]];
      kept := [Last(kept[0], MAX_BUFFER_CHARS)];
      total := MAX_BUFFER_CHARS;
    }
  }

  function Reverse(s: seq<string>): seq<string> {
    if s == [] then [] else [s[|s| - 1]] + Reverse(s[..|s| - 1])
  }

  // What a reader with `mark` should be given of a stream of which only the last
  // `held` characters are kept.
  function Since(stream: string, held: nat, mark: int): string
    requires held <= |stream|
  {
    var from := if mark > |stream| - held then mark else |stream| - held;
    if from >= |stream| then "" else stream[from..]
  }

  // ----- One buffer -------------------------------------------------------------------------

  lemma NewEntryOk(alive: bool, exitCode: Option<int>)
    ensures EntryOk(NewEntry(alive, exitCode), Log([], 0))
  {
    assert Join([]) == "";
  }

  lemma ExitedOk(e: Entry, l: Log, exitCode: int)
    requires EntryOk(e, l)
    ensures EntryOk(e.(alive := false, exitCode := Some(exitCode)), l)
  {
  }

  lemma ReplayedOk(e: Entry, l: Log)
    requires EntryOk(e, l)
    ensures l.replayed <= |l.chunks| && e.replayChunks == Held(l.chunks[l.replayed..])
    ensures e.replayChunks == [] <==> l.replayed == |l.chunks|
    ensures EntryOk(e.(replayChunks := [], replayChars := 0), Log(l.chunks, |l.chunks|))
  {
    HeldIsEmpty(l.chunks[l.replayed..]);
    assert Join([]) == "" && l.chunks[|l.chunks|..] == [];
  }

  lemma AppendingOk(e: Entry, l: Log, data: string, e': Entry)
    requires EntryOk(e, l)
    requires e'.scrollbackChunks == Trim(e.scrollbackChunks + [data]) && e'.scrollbackChars == |Join(e'.scrollbackChunks)|
    requires e'.replayChunks == Trim(e.replayChunks + [data]) && e'.replayChars == |Join(e'.replayChunks)|
    requires e'.receivedChars == e.receivedChars + |data|
    ensures EntryOk(e', Log(l.chunks + [data], l.replayed))
  {
    hide Trim;
    HeldAppend(l.chunks, data);
    HeldAppend(l.chunks[l.replayed..], data);
    assert (l.chunks + [data])[l.replayed..] == l.chunks[l.replayed..] + [data];
    hide Held, Join;
    JoinConcat(l.chunks, [data]);
    JoinOne(data);
  }

  method Append(e: Entry, data: string, ghost l: Log) returns (r: Entry)
    requires EntryOk(e, l)
    ensures EntryOk(r, Log(l.chunks + [data], l.replayed))
    ensures r.alive == e.alive && r.exitCode == e.exitCode
  {
    JoinConcat(e.replayChunks, [data]);
    JoinConcat(e.scrollbackChunks, [data]);
    JoinOne(data);
    hide Held, Trim, Join;
    var replay, replayChars := TrimChunks(e.replayChunks + [data], e.replayChars + |data|);
    var scrollback, scrollbackChars := TrimChunks(e.scrollbackChunks + [data], e.scrollbackChars + |data|);
    r := e.(replayChunks := replay, replayChars := replayChars,
            scrollbackChunks := scrollback, scrollbackChars := scrollbackChars,
            receivedChars := e.receivedChars + |data|);
    AppendingOk(e, l, data, r);
  }

  // The whole chunks from the back that reach `wanted` characters, or all of them.
  method TailChunks(chunks: seq<string>, wanted: int) returns (tail: seq<string>, held: int, ghost from: nat)
    requires wanted <= |Join(chunks)|
    ensures from <= |chunks| && Reverse(tail) == chunks[from..] && held == |Join(chunks[from..])|
    ensures held >= wanted
  {
    tail, held := [], 0;
    var i := |chunks| - 1;
    assert chunks[|chunks|..] == [];
    while i >= 0 && held < wanted
      invariant -1 <= i < |chunks|
      invariant Reverse(tail) == chunks[i + 1..]
      invariant held == |Join(chunks[i + 1..])|
    {
      var chunk := chunks[i];
      assert chunks[i..][1..] == chunks[i + 1..] && (tail + [chunk])[..|tail|] == tail;
      tail := tail + [chunk];
      held := held + |chunk|;
      i := i - 1;
    }
    from := i + 1;
    assert i == -1 ==> chunks[from..] == chunks;
  }

  method ReadSince(e: Entry, mark: int, ghost l: Log) returns (r: string)
    requires EntryOk(e, l)
    ensures |Join(Held(l.chunks))| <= |Join(l.chunks)|
    ensures r == Since(Join(l.chunks), |Join(Held(l.chunks))|, mark)
  {
    HeldIsSuffix(l.chunks);
    var chunks := e.scrollbackChunks;
    hide Held, Join;
    var oldestHeld := e.receivedChars - e.scrollbackChars;
    var wanted := e.receivedChars - if mark > oldestHeld then mark else oldestHeld;
    if wanted <= 0 { return ""; }
    var tail, held, from := TailChunks(chunks, wanted);
    var joined := Join(Reverse(tail));
    JoinConcat(chunks[..from], chunks[from..]);
    assert chunks == chunks[..from] + chunks[from..];
    r := if held > wanted then joined[held - wanted..] else joined;
    TailOfTail(Join(chunks[..from]), joined, Join(chunks), Join(l.chunks), wanted);
  }

  lemma TailOfTail(p: string, a: string, b: string, c: string, n: nat)
    requires b == p + a && IsSuffix(b, c) && n <= |a|
    ensures a[|a| - n..] == c[|c| - n..]
  {
    assert b[|b| - n..] == a[|a| - n..];
  }

  lemma HeldAppend(chunks: seq<string>, data: string)
    ensures Held(chunks + [data]) == Trim(Held(chunks) + [data])
  {
    assert (chunks + [data])[..|chunks|] == chunks;
  }

  lemma {:induction false} TrimNonempty(chunks: seq<string>)
    requires chunks != []
    ensures Trim(chunks) != []
  {
    if |Join(chunks)| > MAX_BUFFER_CHARS && |chunks| > 1 {
      TrimNonempty(chunks[1..]);
    }
  }

  lemma HeldIsEmpty(chunks: seq<string>)
    ensures Held(chunks) == [] <==> chunks == []
  {
    if chunks != [] {
      TrimNonempty(Held(chunks[..|chunks| - 1]) + [chunks[|chunks| - 1]]);
    }
  }

  // ----- All of them -----------------------------------------------------------------------

  class PtyManager {
    var ptyBuffers: map<PtyId, Entry>
    var killedPtyIds: set<PtyId>
    ghost var log: map<PtyId, Log>

    ghost predicate Valid()
      reads this
    {
      && log.Keys == ptyBuffers.Keys
      && forall id :: id in ptyBuffers ==> EntryOk(ptyBuffers[id], log[id])
    }

    constructor ()
      ensures Valid() && ptyBuffers == map[] && killedPtyIds == {}
    {
      ptyBuffers, killedPtyIds, log := map[], {}, map[];
    }

    // A new generation: nothing of the old one's output remains.
    method Spawn(id: PtyId)
      requires Valid()
      modifies this
      ensures Valid() && killedPtyIds == old(killedPtyIds) - {id}
      ensures log == old(log)[id := Log([], 0)]
      ensures id in ptyBuffers && ptyBuffers[id].alive && ptyBuffers[id].exitCode.None?
      ensures ptyBuffers - {id} == old(ptyBuffers) - {id}
    {
      hide EntryOk;
      NewEntryOk(true, None);
      killedPtyIds := killedPtyIds - {id};
      ptyBuffers := ptyBuffers[id := NewEntry(true, None)];
      log := log[id := Log([], 0)];
    }

    // Output of a killed PTY is dropped; output of one not spawned here opens a buffer.
    method BufferData(id: PtyId, data: string)
      requires Valid()
      modifies this
      ensures Valid() && killedPtyIds == old(killedPtyIds)
      ensures var before := if id in old(log) then old(log)[id] else Log([], 0);
        log == if id in old(killedPtyIds) then old(log)
               else old(log)[id := After(before, Write(data))]
      // Whether it has exited stays as it was; a new one has not.
      ensures ptyBuffers - {id} == old(ptyBuffers) - {id}
      ensures id !in killedPtyIds && id in old(ptyBuffers) ==>
        id in ptyBuffers && ptyBuffers[id].alive == old(ptyBuffers)[id].alive && ptyBuffers[id].exitCode == old(ptyBuffers)[id].exitCode
      ensures id !in killedPtyIds && id !in old(ptyBuffers) ==>
        id in ptyBuffers && ptyBuffers[id].alive && ptyBuffers[id].exitCode.None?
    {
      hide EntryOk;
      if id in killedPtyIds { return; }
      NewEntryOk(true, None);
      ghost var l := if id in log then log[id] else Log([], 0);
      var entry := Append(if id in ptyBuffers then ptyBuffers[id] else NewEntry(true, None), data, l);
      ptyBuffers := ptyBuffers[id := entry];
      log := log[id := Log(l.chunks + [data], l.replayed)];
    }

    method BufferExit(id: PtyId, exitCode: int)
      requires Valid()
      modifies this
      ensures Valid() && killedPtyIds == old(killedPtyIds)
      ensures log == if id in old(killedPtyIds) || id in old(log) then old(log) else old(log)[id := Log([], 0)]
      ensures id !in killedPtyIds ==> id in ptyBuffers && !ptyBuffers[id].alive && ptyBuffers[id].exitCode == Some(exitCode)
      ensures ptyBuffers - {id} == old(ptyBuffers) - {id} && (id in killedPtyIds ==> ptyBuffers == old(ptyBuffers))
    {
      hide EntryOk;
      if id in killedPtyIds { return; }
      if id !in ptyBuffers {
        NewEntryOk(false, Some(exitCode));
        ptyBuffers := ptyBuffers[id := NewEntry(false, Some(exitCode))];
        log := log[id := Log([], 0)];
        return;
      }
      ExitedOk(ptyBuffers[id], log[id], exitCode);
      ptyBuffers := ptyBuffers[id := ptyBuffers[id].(alive := false, exitCode := Some(exitCode))];
    }

    method Kill(id: PtyId)
      requires Valid()
      modifies this
      ensures Valid() && killedPtyIds == old(killedPtyIds) + {id} && log == old(log) - {id}
      ensures ptyBuffers == old(ptyBuffers) - {id}
    {
      hide EntryOk;
      killedPtyIds := killedPtyIds + {id};
      ptyBuffers := ptyBuffers - {id};
      log := log - {id};
    }

    method KillAll()
      modifies this
      ensures Valid() && killedPtyIds == {} && log == map[]
    {
      ptyBuffers, killedPtyIds, log := map[], {}, map[];
    }

    // All that came since the last replay and is still held, once.
    method GetReplayData(id: PtyId) returns (data: Option<string>)
      requires Valid()
      modifies this
      ensures Valid() && killedPtyIds == old(killedPtyIds)
      ensures id !in old(log) ==> data == None && log == old(log)
      ensures id in old(log) ==>
        var l := old(log)[id];
        l.replayed <= |l.chunks| && data == Answer(l) && log == old(log)[id := After(l, Replay)]
    {
      hide EntryOk, Held, Join;
      if id !in ptyBuffers { return None; }
      ghost var l := log[id];
      ReplayedOk(ptyBuffers[id], l);
      if ptyBuffers[id].replayChunks == [] { return None; }
      data := Some(Join(ptyBuffers[id].replayChunks));
      ptyBuffers := ptyBuffers[id := ptyBuffers[id].(replayChunks := [], replayChars := 0)];
      log := log[id := Log(l.chunks, |l.chunks|)];
    }

    method GetScrollbackReceived(id: PtyId) returns (mark: int)
      requires Valid()
      ensures mark == if id in log then |Join(log[id].chunks)| else 0
    {
      hide Held, Join;
      mark := if id in ptyBuffers then ptyBuffers[id].receivedChars else 0;
    }

    // The stream from the mark on, or from the oldest character held if that is later.
    method GetScrollbackSince(id: PtyId, mark: int) returns (r: string)
      requires Valid()
      ensures id !in log ==> r == ""
      ensures id in log ==>
        && |Join(Held(log[id].chunks))| <= |Join(log[id].chunks)|
        && r == Since(Join(log[id].chunks), |Join(Held(log[id].chunks))|, mark)
    {
      hide EntryOk;
      if id !in ptyBuffers { return ""; }
      r := ReadSince(ptyBuffers[id], mark, log[id]);
    }
  }

  // ----- Reading from a mark -------------------------------------------------------------

  // Reading from a mark taken when `before` had come gives exactly what came after, for
  // as long as that fits the cap.
  lemma SinceMarkIsExact(before: seq<string>, after: seq<string>)
    requires |Join(after)| <= MAX_BUFFER_CHARS
    ensures var all := before + after;
      && |Join(Held(all))| <= |Join(all)|
      && Since(Join(all), |Join(Held(all))|, |Join(before)|) == Join(after)
  {
    var all := before + after;
    assert all[|before|..] == after;
    HeldIsSuffix(all);
    var p := RecentIsHeld(all, |before|);
    JoinConcat(before, after);
    JoinConcat(p, after);
    assert Join(all)[|Join(before)|..] == Join(after);
  }

  // ----- Replaying -----------------------------------------------------------------------

  // Any writes and replays of one generation.
  ghost predicate Run(logs: seq<Log>, ops: seq<Op>) {
    && |logs| == |ops| + 1
    && logs[0] == Log([], 0)
    && forall i :: 0 <= i < |ops| ==> logs[i + 1] == After(logs[i], ops[i])
  }

  lemma {:induction false} RunGrows(logs: seq<Log>, ops: seq<Op>, i: nat, j: nat)
    requires Run(logs, ops) && i <= j < |logs|
    ensures logs[i].replayed <= logs[j].replayed <= |logs[j].chunks|
    ensures logs[i].chunks <= logs[j].chunks
    decreases j
  {
    if i < j {
      RunGrows(logs, ops, i, j - 1);
    } else if j > 0 {
      RunGrows(logs, ops, j - 1, j - 1);
    }
  }

  // The stretch of the stream a replay answers: from where it begins to all there was.
  ghost function PieceEnd(l: Log): nat {
    |Join(l.chunks)|
  }

  ghost function PieceStart(l: Log): int
    requires l.replayed <= |l.chunks|
  {
    |Join(l.chunks)| - |Join(Held(l.chunks[l.replayed..]))|
  }

  // It begins no sooner than where the last replay ended, and there when all since fits.
  lemma PieceIs(l: Log)
    requires l.replayed <= |l.chunks|
    ensures |Join(l.chunks[..l.replayed])| <= PieceStart(l) <= PieceEnd(l)
    ensures |Join(l.chunks[l.replayed..])| <= MAX_BUFFER_CHARS ==> PieceStart(l) == |Join(l.chunks[..l.replayed])|
    ensures Answer(l).Some? ==> Answer(l).value == Join(l.chunks)[PieceStart(l)..]
  {
    var before, after := l.chunks[..l.replayed], l.chunks[l.replayed..];
    assert l.chunks == before + after;
    JoinConcat(before, after);
    HeldIsSuffix(after);
    hide Join, Trim;
    if |Join(after)| <= MAX_BUFFER_CHARS { HeldWhole(after); }
  }

  // What was written since the last replay.
  function WrittenSince(ops: seq<Op>, i: nat): seq<string>
    requires i <= |ops|
  {
    if i == 0 then []
    else match ops[i - 1]
      case Replay => []
      case Write(data) => WrittenSince(ops, i - 1) + [data]
  }

  lemma {:induction false} SinceReplayed(logs: seq<Log>, ops: seq<Op>, i: nat)
    requires Run(logs, ops) && i < |logs|
    ensures logs[i].replayed <= |logs[i].chunks| && logs[i].chunks[logs[i].replayed..] == WrittenSince(ops, i)
  {
    if i > 0 {
      SinceReplayed(logs, ops, i - 1);
      assert logs[i] == After(logs[i - 1], ops[i - 1]);
    }
  }

  // A replay answers exactly when something was written since the last, even if it was only
  // empty text: all of it, joined, while that fits the cap, and its end that is held otherwise.
  lemma ReplayAnswers(logs: seq<Log>, ops: seq<Op>, i: nat)
    requires Run(logs, ops) && i < |ops| && ops[i].Replay?
    ensures logs[i].replayed <= |logs[i].chunks|
    ensures var since := WrittenSince(ops, i);
      && (Answer(logs[i]).Some? <==> since != [])
      && (since != [] && |Join(since)| <= MAX_BUFFER_CHARS ==> Answer(logs[i]) == Some(Join(since)))
      && (since != [] ==> Answer(logs[i]) == Some(Join(Held(since))) && IsSuffix(Join(Held(since)), Join(since)))
  {
    hide Join, Held;
    SinceReplayed(logs, ops, i);
    var since := WrittenSince(ops, i);
    HeldIsSuffix(since);
    if |Join(since)| <= MAX_BUFFER_CHARS { HeldWhole(since); }
  }

  lemma HeldWhole(chunks: seq<string>)
    requires |Join(chunks)| <= MAX_BUFFER_CHARS
    ensures Held(chunks) == chunks
  {
    assert chunks[0..] == chunks;
    var p := RecentIsHeld(chunks, 0);
    HeldNoLonger(chunks);
    assert p == [];
  }

  lemma JoinOfPrefix(a: seq<string>, b: seq<string>)
    requires a <= b
    ensures Join(a) <= Join(b)
  {
    assert b == a + b[|a|..];
    JoinConcat(a, b[|a|..]);
  }

  // Over any run, two replays answer two stretches of one stream, the later beginning no
  // sooner than where the earlier ended; and exactly there, if no replay came between and
  // all that came since fits the cap. So nothing is replayed twice, out of its order, or,
  // within the cap, left out.
  lemma ReplaysEachOnce(logs: seq<Log>, ops: seq<Op>, i: nat, j: nat)
    requires Run(logs, ops) && i < j < |ops| && ops[i].Replay? && ops[j].Replay?
    ensures logs[i].replayed <= |logs[i].chunks| && logs[j].replayed <= |logs[j].chunks|
    ensures var stream := Join(logs[|ops|].chunks);
      && 0 <= PieceStart(logs[i]) <= PieceEnd(logs[i]) <= PieceStart(logs[j]) <= PieceEnd(logs[j]) <= |stream|
      && (Answer(logs[i]).Some? ==> Answer(logs[i]).value == stream[PieceStart(logs[i])..PieceEnd(logs[i])])
      && (Answer(logs[j]).Some? ==> Answer(logs[j]).value == stream[PieceStart(logs[j])..PieceEnd(logs[j])])
    ensures (forall k :: i < k < j ==> !ops[k].Replay?) && |Join(logs[j].chunks[logs[j].replayed..])| <= MAX_BUFFER_CHARS ==>
      PieceStart(logs[j]) == PieceEnd(logs[i])
  {
    hide Join, Held;
    RunGrows(logs, ops, 0, i);
    RunGrows(logs, ops, i + 1, j);
    RunGrows(logs, ops, j, |ops|);
    PieceIs(logs[i]);
    PieceIs(logs[j]);
    var seen := logs[j].chunks[..logs[j].replayed];
    assert logs[i].chunks <= seen;
    JoinOfPrefix(logs[i].chunks, seen);
    JoinOfPrefix(logs[i].chunks, logs[j].chunks);
    JoinOfPrefix(logs[j].chunks, logs[|ops|].chunks);
    if forall k :: i < k < j ==> !ops[k].Replay? {
      NoneBetween(logs, ops, i, j);
      assert seen == logs[i].chunks;
    }
  }

  lemma {:induction false} NoneBetween(logs: seq<Log>, ops: seq<Op>, i: nat, j: nat)
    requires Run(logs, ops) && i < j < |logs| && ops[i].Replay? && forall k :: i < k < j ==> !ops[k].Replay?
    ensures logs[j].replayed == |logs[i].chunks|
    decreases j
  {
    if i + 1 < j {
      NoneBetween(logs, ops, i, j - 1);
      assert !ops[j - 1].Replay?;
    }
  }

  lemma {:induction false} TrimNoLonger(chunks: seq<string>)
    ensures |Trim(chunks)| <= |chunks|
  {
    if |Join(chunks)| > MAX_BUFFER_CHARS && |chunks| > 1 {
      TrimNoLonger(chunks[1..]);
    }
  }

  lemma {:induction false} HeldNoLonger(chunks: seq<string>)
    ensures |Held(chunks)| <= |chunks|
  {
    if chunks != [] {
      HeldNoLonger(chunks[..|chunks| - 1]);
      TrimNoLonger(Held(chunks[..|chunks| - 1]) + [chunks[|chunks| - 1]]);
    }
  }
}
