/**
 The sidecar's PTYs: generations under one id, the replay buffer of the current one,
 and the bounce-and-restore resize.
 */
module PtyCore {
  import opened Common

  const REPLAY_CHARS: nat := 200_000

  type PtyId = nat
  type Gen = nat
  type TimerId = nat

  datatype Size = Size(cols: int, rows: int)

  datatype Session = Session(chunks: seq<string>, chars: int)

  // ----- The replay buffer ------------------------------------------------------------

  // Drops chunks off the front while what is left reaches the cap without them.
  function Shed(chunks: seq<string>): seq<string> {
    if |chunks| > 1 && |Join(chunks)| - |chunks[0]| >= REPLAY_CHARS then Shed(chunks[1..]) else chunks
  }

  // Then cuts the head.
  function Cut(chunks: seq<string>): seq<string>
    requires |Join(chunks)| > REPLAY_CHARS ==> chunks != [] && |Join(chunks)| - REPLAY_CHARS <= |chunks[0]|
  {
    if |Join(chunks)| > REPLAY_CHARS then [chunks[0][|Join(chunks)| - REPLAY_CHARS..]] + chunks[1..] else chunks
  }

  lemma {:induction false} ShedIsSuffix(chunks: seq<string>)
    requires chunks != []
    ensures Shed(chunks) != [] && IsSuffix(Join(Shed(chunks)), Join(chunks))
    ensures |Join(chunks)| >= REPLAY_CHARS ==> |Join(Shed(chunks))| >= REPLAY_CHARS
    ensures |Join(chunks)| < REPLAY_CHARS ==> Shed(chunks) == chunks
    ensures |Join(Shed(chunks))| > REPLAY_CHARS ==> |Join(Shed(chunks))| - REPLAY_CHARS <= |Shed(chunks)[0]|
  {
    if |chunks| > 1 && |Join(chunks)| - |chunks[0]| >= REPLAY_CHARS {
      ShedIsSuffix(chunks[1..]);
    } else if |chunks| == 1 {
      JoinOne(chunks[0]);
      assert chunks == [chunks[0]];
    }
  }

  lemma DropHead(a: string, b: string, n: nat)
    requires n <= |a|
    ensures (a + b)[n..] == a[n..] + b
  {
  }

  lemma CutText(s: seq<string>)
    requires |Join(s)| > REPLAY_CHARS && s != [] && |Join(s)| - REPLAY_CHARS <= |s[0]|
    ensures Join(Cut(s)) == Join(s)[|Join(s)| - REPLAY_CHARS..]
  {
    var n := |Join(s)| - REPLAY_CHARS;
    assert Cut(s)[0] == s[0][n..] && Cut(s)[1..] == s[1..];
    DropHead(s[0], Join(s[1..]), n);
  }

  // After the trims exactly the last REPLAY_CHARS characters are left.
  lemma CutKeepsTheLast(chunks: seq<string>)
    requires chunks != []
    ensures Shed(chunks) != []
    ensures |Join(Shed(chunks))| > REPLAY_CHARS ==> |Join(Shed(chunks))| - REPLAY_CHARS <= |Shed(chunks)[0]|
    ensures Join(Cut(Shed(chunks))) == Last(Join(chunks), REPLAY_CHARS)
  {
    var s := Shed(chunks);
    ShedIsSuffix(chunks);
    if |Join(s)| > REPLAY_CHARS {
      CutText(s);
      hide Shed, Join, Cut;
    } else {
      assert Cut(s) == s;
      hide Shed, Join, Cut;
    }
  }

  // Recording a chunk after text of which the last characters are held.
  lemma LastOfLast(t: string, more: string, n: nat)
    ensures Last(Last(t, n) + more, n) == Last(t + more, n)
  {
  }

  function Recorded(s: Session, data: string): Session {
    CutKeepsTheLast(s.chunks + [data]);
    var kept := Cut(Shed(s.chunks + [data]));
    Session(kept, |Join(kept)|)
  }

  method Record(session: Session, data: string) returns (r: Session)
    requires session.chars == |Join(session.chunks)|
    ensures r == Recorded(session, data)
  {
    var chunks, chars := session.chunks + [data], session.chars + |data|;
    ghost var all := chunks;
    JoinAppend(session.chunks, data);
    CutKeepsTheLast(all);
    while |chunks| > 1 && chars - |chunks[0]| >= REPLAY_CHARS
      invariant chunks != [] && chars == |Join(chunks)| && Shed(chunks) == Shed(all)
      decreases |chunks|
    {
      chars := chars - |chunks[0]|;
      chunks := chunks[1..];
    }
    if chars > REPLAY_CHARS {
      chunks := [chunks[0][chars - REPLAY_CHARS..]] + chunks[1..];
      chars := REPLAY_CHARS;
    }
    r := Session(chunks, chars);
    assert chunks == Cut(Shed(all));
  }

  lemma RecordedText(s: Session, data: string, t: string)
    requires Join(s.chunks) == Last(t, REPLAY_CHARS)
    ensures Join(Recorded(s, data).chunks) == Last(t + data, REPLAY_CHARS)
    ensures Recorded(s, data).chars == |Join(Recorded(s, data).chunks)|
  {
    CutKeepsTheLast(s.chunks + [data]);
    JoinAppend(s.chunks, data);
    LastOfLast(t, data, REPLAY_CHARS);
  }

  // ----- The state ----------------------------------------------------------------------

  // What a repaint's timer will do when it fires.
  datatype Timer = Timer(id: PtyId, gen: Gen, size: Size)

  // A PTY: its size, and what only the history knows: the last size asked of it, whether
  // it took it or not, all it ever printed, and whether it has died.
  datatype Pty = Pty(id: PtyId, size: Size, requested: Size, printed: string, dead: bool)

  // The manager's three maps, every PTY ever spawned, and every timer ever set, any of
  // which may fire at any time, even again.
  datatype Core = Core(
    ptys: map<PtyId, Gen>, sessions: map<PtyId, Session>, repaintTimers: map<PtyId, TimerId>,
    gens: map<Gen, Pty>, timers: map<TimerId, Timer>)

  predicate Live(c: Core, g: Gen) {
    g in c.gens && c.gens[g].id in c.ptys && c.ptys[c.gens[g].id] == g
  }

  // A row less, or a row more for a single row.
  function Bounce(size: Size): Size {
    Size(size.cols, if size.rows > 1 then size.rows - 1 else size.rows + 1)
  }

  // A terminal has a column and a row at least; asked for less, resizing throws.
  predicate Takes(size: Size) {
    size.cols > 0 && size.rows > 0
  }

  function CancelRepaint(c: Core, id: PtyId): Core {
    c.(repaintTimers := c.repaintTimers - {id})
  }

  // `starts` is whether the shell could be started; a refused helper is one that was not.
  function Spawn(c: Core, id: PtyId, g: Gen, size: Size, starts: bool): Core {
    if !starts then c
    else
      CancelRepaint(c, id).(
        ptys := c.ptys[id := g], sessions := c.sessions[id := Session([], 0)],
        gens := c.gens[g := Pty(id, size, size, "", false)])
  }

  // Every chunk is sent on; only a live PTY's is recorded.
  function Data(c: Core, g: Gen, data: string): Core
    requires g in c.gens
  {
    var p := c.gens[g];
    var c' := c.(gens := c.gens[g := p.(printed := p.printed + data)]);
    if Live(c, g) && p.id in c.sessions then c'.(sessions := c.sessions[p.id := Recorded(c.sessions[p.id], data)])
    else c'
  }

  function Exit(c: Core, g: Gen): Core {
    if Live(c, g) then CancelRepaint(c, c.gens[g].id).(ptys := c.ptys - {c.gens[g].id}) else c
  }

  function Die(c: Core, g: Gen): Core
    requires g in c.gens
  {
    c.(gens := c.gens[g := c.gens[g].(dead := true)])
  }

  // Resizing a dead process, or to a size no terminal has, throws before a timer is set.
  function Resize(c: Core, id: PtyId, size: Size, repaint: bool, t: TimerId): Core {
    var c' := CancelRepaint(c, id);
    if id !in c.ptys || c.ptys[id] !in c.gens then c'
    else
      var g := c.ptys[id];
      var asked := c.gens[g].(requested := size);
      var target := if repaint then Bounce(size) else size;
      if asked.dead || !Takes(target) then c'.(gens := c.gens[g := asked])
      else if !repaint then c'.(gens := c.gens[g := asked.(size := size)])
      else c'.(gens := c.gens[g := asked.(size := Bounce(size))],
               timers := c.timers[t := Timer(id, g, size)], repaintTimers := c'.repaintTimers[id := t])
  }

  function Fire(c: Core, t: TimerId): Core
    requires t in c.timers
  {
    var timer := c.timers[t];
    if timer.id !in c.repaintTimers || c.repaintTimers[timer.id] != t then c
    else
      var c' := CancelRepaint(c, timer.id);
      if timer.id !in c.ptys || c.ptys[timer.id] != timer.gen || timer.gen !in c.gens then c'
      else if c.gens[timer.gen].dead || !Takes(timer.size) then c'
      else c'.(gens := c.gens[timer.gen := c.gens[timer.gen].(size := timer.size)])
  }

  function Kill(c: Core, id: PtyId): Core {
    CancelRepaint(c, id).(sessions := c.sessions - {id}, ptys := c.ptys - {id})
  }

  function KillAll(c: Core): Core {
    c.(repaintTimers := map[], ptys := map[], sessions := map[])
  }

  // ----- Runs -------------------------------------------------------------------------------

  datatype Event =
    | Spawns(id: PtyId, gen: Gen, size: Size, starts: bool)
    | Prints(gen: Gen, data: string)
    | Exits(gen: Gen)
    | Dies(gen: Gen)
    | Resizes(id: PtyId, size: Size, repaint: bool, timer: TimerId)
    | Fires(timer: TimerId)
    | Kills(id: PtyId)
    | KillsAll

  // Generations and timers are new objects; what prints or fires was once made. A shell
  // starts on a terminal that has a size.
  predicate Allowed(c: Core, e: Event) {
    match e
    case Spawns(_, g, size, starts) => g !in c.gens && (starts ==> Takes(size))
    case Prints(g, _) => g in c.gens
    case Exits(g) => g in c.gens
    case Dies(g) => g in c.gens
    case Resizes(_, _, _, t) => t !in c.timers
    case Fires(t) => t in c.timers
    case Kills(_) => true
    case KillsAll => true
  }

  function Step(c: Core, e: Event): Core
    requires Allowed(c, e)
  {
    match e
    case Spawns(id, g, size, starts) => Spawn(c, id, g, size, starts)
    case Prints(g, data) => Data(c, g, data)
    case Exits(g) => Exit(c, g)
    case Dies(g) => Die(c, g)
    case Resizes(id, size, repaint, t) => Resize(c, id, size, repaint, t)
    case Fires(t) => Fire(c, t)
    case Kills(id) => Kill(c, id)
    case KillsAll => KillAll(c)
  }

  ghost predicate Run(cores: seq<Core>, events: seq<Event>) {
    && |cores| == |events| + 1 && cores[0] == Core(map[], map[], map[], map[], map[])
    && forall i :: 0 <= i < |events| ==> Allowed(cores[i], events[i]) && cores[i + 1] == Step(cores[i], events[i])
  }

  // ----- What every step keeps ----------------------------------------------------------------

  // The replay of a live PTY is the end of what its generation printed.
  ghost predicate ReplayOk(c: Core, id: PtyId) {
    && (id in c.sessions ==> c.sessions[id].chars == |Join(c.sessions[id].chunks)|)
    && (id in c.ptys ==>
          && id in c.sessions && c.ptys[id] in c.gens
          && Join(c.sessions[id].chunks) == Last(c.gens[c.ptys[id]].printed, REPLAY_CHARS))
  }

  // A live PTY that was last asked for a size there is has it and no timer pending, or
  // stands bounced off it with one pending that will set it; and no other timer is.
  ghost predicate SizeOk(c: Core, id: PtyId) {
    && (id in c.ptys ==>
          && c.ptys[id] in c.gens
          && var p := c.gens[c.ptys[id]];
             && p.id == id && Takes(p.size)
             && (!p.dead && id in c.repaintTimers ==> p.size == Bounce(p.requested))
             && (!p.dead && id !in c.repaintTimers && Takes(p.requested) ==> p.size == p.requested))
    && (id in c.repaintTimers ==>
          && c.repaintTimers[id] in c.timers
          && id in c.ptys && c.ptys[id] in c.gens
          && c.timers[c.repaintTimers[id]] == Timer(id, c.ptys[id], c.gens[c.ptys[id]].requested))
  }

  ghost predicate Inv(c: Core) {
    forall id :: ReplayOk(c, id) && SizeOk(c, id)
  }

  lemma ResizeKeepsSize(c: Core, e: Event, id: PtyId)
    requires e.Resizes? && (forall i :: SizeOk(c, i)) && Allowed(c, e)
    ensures SizeOk(Step(c, e), id)
  {
    assert SizeOk(c, id) && SizeOk(c, e.id);
  }

  lemma FireKeepsSize(c: Core, e: Event, id: PtyId)
    requires e.Fires? && (forall i :: SizeOk(c, i)) && Allowed(c, e)
    ensures SizeOk(Step(c, e), id)
  {
    assert SizeOk(c, id) && SizeOk(c, c.timers[e.timer].id);
  }

  lemma StepKeepsSize(c: Core, e: Event, id: PtyId)
    requires (forall i :: SizeOk(c, i)) && Allowed(c, e)
    ensures SizeOk(Step(c, e), id)
  {
    hide Recorded;
    assert SizeOk(c, id);
    if e.Fires? {
      hide Step, SizeOk;
      FireKeepsSize(c, e, id);
    } else if e.Resizes? {
      hide Step, SizeOk;
      ResizeKeepsSize(c, e, id);
    } else if e.Prints? || e.Exits? || e.Dies? {
      assert SizeOk(c, c.gens[e.gen].id);
    }
  }

  lemma StepKeepsReplay(c: Core, e: Event, id: PtyId)
    requires Inv(c) && Allowed(c, e)
    ensures ReplayOk(Step(c, e), id)
  {
    assert ReplayOk(c, id) && SizeOk(c, id);
    if e.Prints? && Live(c, e.gen) && c.gens[e.gen].id == id {
      RecordedText(c.sessions[id], e.data, c.gens[e.gen].printed);
    }
    assert Join([]) == "" && Last("", REPLAY_CHARS) == "";
    hide Recorded, Join, Last;
  }

  lemma {:induction false} RunKeepsInv(cores: seq<Core>, events: seq<Event>, i: nat)
    requires Run(cores, events) && i < |cores|
    ensures Inv(cores[i])
  {
    if i > 0 {
      RunKeepsInv(cores, events, i - 1);
      hide ReplayOk, SizeOk, Step;
      forall id
        ensures SizeOk(cores[i], id) && ReplayOk(cores[i], id)
      {
        StepKeepsSize(cores[i - 1], events[i - 1], id);
        StepKeepsReplay(cores[i - 1], events[i - 1], id);
      }
    }
  }

  // The replay of a PTY that is live is exactly the last REPLAY_CHARS characters its own
  // generation printed.
  lemma ReplayIsTheEnd(cores: seq<Core>, events: seq<Event>, i: nat, id: PtyId)
    requires Run(cores, events) && i < |cores| && id in cores[i].ptys
    ensures var c := cores[i];
      && id in c.sessions && c.ptys[id] in c.gens && c.gens[c.ptys[id]].id == id
      && Join(c.sessions[id].chunks) == Last(c.gens[c.ptys[id]].printed, REPLAY_CHARS)
  {
    RunKeepsInv(cores, events, i);
    assert ReplayOk(cores[i], id) && SizeOk(cores[i], id);
    hide Last, Join;
  }

  predicate HasItsSize(c: Core, id: PtyId)
    requires id in c.ptys && c.ptys[id] in c.gens
  {
    c.gens[c.ptys[id]].size == c.gens[c.ptys[id]].requested && id !in c.repaintTimers
  }

  predicate WillHaveIt(c: Core, id: PtyId)
    requires id in c.ptys && c.ptys[id] in c.gens
  {
    var asked := c.gens[c.ptys[id]].requested;
    && Takes(asked) && id in c.repaintTimers && c.repaintTimers[id] in c.timers
    && c.timers[c.repaintTimers[id]] == Timer(id, c.ptys[id], asked)
  }

  // A PTY that is live and whose process has not died either has the last size asked of
  // it, with no timer pending, or has one timer pending, made for it and for that size,
  // exactly when that is a size a terminal has.
  lemma SizeIsOrWillBe(cores: seq<Core>, events: seq<Event>, i: nat, id: PtyId)
    requires Run(cores, events) && i < |cores| && id in cores[i].ptys
    ensures var c := cores[i];
      && c.ptys[id] in c.gens
      && (!c.gens[c.ptys[id]].dead ==>
           (Takes(c.gens[c.ptys[id]].requested) <==> HasItsSize(c, id) || WillHaveIt(c, id)))
  {
    RunKeepsInv(cores, events, i);
    assert SizeOk(cores[i], id);
  }

  // Asked for no size in the middle of a repaint, a PTY is left bounced: a row short of the
  // size it had before, with nothing to set it right.
  lemma RefusedResizeStrands() returns (cores: seq<Core>, events: seq<Event>)
    ensures Run(cores, events) && |events| == 3
    ensures events[0] == Spawns(0, 0, Size(80, 24), true)
    ensures events[1] == Resizes(0, Size(80, 24), true, 0) && events[2] == Resizes(0, Size(0, 0), false, 1)
    ensures var c := cores[3];
      0 in c.gens && !c.gens[0].dead && Live(c, 0) && c.gens[0].size == Size(80, 23) && 0 !in c.repaintTimers
  {
    var c0 := Core(map[], map[], map[], map[], map[]);
    events := [Spawns(0, 0, Size(80, 24), true), Resizes(0, Size(80, 24), true, 0), Resizes(0, Size(0, 0), false, 1)];
    var c1 := Step(c0, events[0]);
    var c2 := Step(c1, events[1]);
    var c3 := Step(c2, events[2]);
    cores := [c0, c1, c2, c3];
  }

  // The timer's id, and whether the table still points at it.
  predicate Pending(c: Core, t: TimerId) {
    t in c.timers && c.timers[t].id in c.repaintTimers && c.repaintTimers[c.timers[t].id] == t
  }

  // A timer that fires resizes a PTY only while pending: then the live one it was made
  // for, and to the last size asked of it; and it does so wherever that can be done.
  lemma FireRestores(cores: seq<Core>, events: seq<Event>, i: nat, g: Gen)
    requires Run(cores, events) && i < |events| && events[i].Fires? && g in cores[i].gens
    ensures g in cores[i + 1].gens
    ensures cores[i + 1].gens[g] != cores[i].gens[g] ==>
      && Pending(cores[i], events[i].timer)
      && Live(cores[i], g)
      && cores[i + 1].gens[g] == cores[i].gens[g].(size := cores[i].gens[g].requested)
      && cores[i].gens[g].id !in cores[i + 1].repaintTimers
    ensures var c, t := cores[i], events[i].timer;
      Pending(c, t) && c.timers[t].gen == g && !c.gens[g].dead && Takes(c.gens[g].requested) ==>
        cores[i + 1].gens[g].size == c.gens[g].requested && c.gens[g].id !in cores[i + 1].repaintTimers
  {
    RunKeepsInv(cores, events, i);
    assert SizeOk(cores[i], cores[i].timers[events[i].timer].id);
  }

  // What ends the wait of every timer set for `id` before.
  predicate Supersedes(c: Core, e: Event, id: PtyId) {
    match e
    case Resizes(i, _, _, _) => i == id
    case Kills(i) => i == id
    case KillsAll => true
    case Spawns(i, _, _, starts) => i == id && starts
    case Exits(g) => id in c.ptys && c.ptys[id] == g && Live(c, g)
    case _ => false
  }

  lemma TimerStep(c: Core, e: Event, t: TimerId)
    requires Allowed(c, e) && t in c.timers
    ensures t in Step(c, e).timers && Step(c, e).timers[t] == c.timers[t]
    ensures !Pending(c, t) ==> !Pending(Step(c, e), t)
  {
    hide Recorded;
  }

  lemma RunStep(cores: seq<Core>, events: seq<Event>, k: nat)
    requires Run(cores, events) && k + 1 < |cores|
    ensures k < |events| && Allowed(cores[k], events[k]) && cores[k + 1] == Step(cores[k], events[k])
  {
  }

  lemma {:induction false} TimerStays(cores: seq<Core>, events: seq<Event>, i: nat, j: nat, t: TimerId)
    requires Run(cores, events) && i <= j < |cores| && t in cores[i].timers
    ensures t in cores[j].timers && cores[j].timers[t] == cores[i].timers[t]
    ensures !Pending(cores[i], t) ==> !Pending(cores[j], t)
    decreases j
  {
    hide *;
    if i < j {
      TimerStays(cores, events, i, j - 1, t);
      RunStep(cores, events, j - 1);
      TimerStep(cores[j - 1], events[j - 1], t);
    }
  }

  // A timer set before a later request for its id, a new generation, an exit or a kill
  // never resizes anything, whenever it fires.
  lemma StaleTimersAreSilent(cores: seq<Core>, events: seq<Event>, i: nat, k: nat, j: nat, t: TimerId)
    requires Run(cores, events) && i <= k < j < |events|
    requires t in cores[i].timers && Supersedes(cores[k], events[k], cores[i].timers[t].id)
    requires events[j] == Fires(t)
    ensures cores[j + 1] == cores[j]
  {
    TimerStays(cores, events, i, k, t);
    assert !Pending(cores[k + 1], t) by {
      RunKeepsInv(cores, events, k);
      assert SizeOk(cores[k], cores[i].timers[t].id);
      hide Recorded;
    }
    assert t in cores[k + 1].timers by {
      TimerStays(cores, events, k, k + 1, t);
    }
    TimerStays(cores, events, k, k + 1, t);
    TimerStays(cores, events, k + 1, j, t);
  }

  // ----- What each call does ---------------------------------------------------------------

  // Every other id's PTY, replay and timer are as they were.
  ghost predicate OthersStay(c: Core, c': Core, id: PtyId) {
    && c'.ptys - {id} == c.ptys - {id} && c'.sessions - {id} == c.sessions - {id}
    && c'.repaintTimers - {id} == c.repaintTimers - {id}
  }

  ghost predicate Gone(c: Core, id: PtyId) {
    id !in c.ptys && id !in c.repaintTimers
  }

  // A shell that starts is the PTY of its id from then on, at the size asked, with nothing
  // to replay and no repaint pending; one that does not changes nothing.
  lemma SpawnDoes(cores: seq<Core>, events: seq<Event>, i: nat, id: PtyId, g: Gen, size: Size, starts: bool)
    requires Run(cores, events) && i < |events| && events[i] == Spawns(id, g, size, starts)
    ensures var c, c' := cores[i], cores[i + 1];
      if !starts then c' == c
      else
        && id in c'.ptys && c'.ptys[id] == g && g !in c.gens && c'.gens == c.gens[g := Pty(id, size, size, "", false)]
        && id in c'.sessions && c'.sessions[id] == Session([], 0) && id !in c'.repaintTimers && OthersStay(c, c', id)
  {
    assert Allowed(cores[i], events[i]) && cores[i + 1] == Step(cores[i], events[i]);
    hide Recorded;
  }

  // What a PTY prints is recorded only where it is still the one of its id, and no other's
  // replay is touched.
  lemma PrintDoes(cores: seq<Core>, events: seq<Event>, i: nat, g: Gen, data: string)
    requires Run(cores, events) && i < |events| && events[i] == Prints(g, data)
    ensures var c, c' := cores[i], cores[i + 1];
      && g in c.gens && c'.ptys == c.ptys && c'.repaintTimers == c.repaintTimers && OthersStay(c, c', c.gens[g].id)
      && c'.gens == c.gens[g := c.gens[g].(printed := c.gens[g].printed + data)]
      && var id := c.gens[g].id;
         if id in c.ptys && c.ptys[id] == g then
           && id in c.sessions && id in c'.sessions
           && Join(c'.sessions[id].chunks) == Last(c.gens[g].printed + data, 200_000)
         else c'.sessions == c.sessions
  {
    assert Allowed(cores[i], events[i]) && cores[i + 1] == Step(cores[i], events[i]);
    RunKeepsInv(cores, events, i);
    RunKeepsInv(cores, events, i + 1);
    var id := cores[i].gens[g].id;
    assert ReplayOk(cores[i], id) && ReplayOk(cores[i + 1], id);
    hide Recorded, Join, Last, Inv, Run;
  }

  // A PTY that exits leaves its id, and its repaint with it; its replay stays until its id is
  // killed or spawned again. The exit of one no longer current is nothing.
  lemma ExitDoes(cores: seq<Core>, events: seq<Event>, i: nat, g: Gen)
    requires Run(cores, events) && i < |events| && events[i] == Exits(g)
    ensures var c, c' := cores[i], cores[i + 1];
      && g in c.gens && c'.gens == c.gens && c'.sessions == c.sessions
      && var id := c.gens[g].id;
         if id in c.ptys && c.ptys[id] == g then Gone(c', id) && OthersStay(c, c', id) else c' == c
  {
    assert Allowed(cores[i], events[i]) && cores[i + 1] == Step(cores[i], events[i]);
    hide Recorded;
  }

  // A kill takes the PTY of its id, its replay and its repaint, and no other's.
  lemma KillDoes(cores: seq<Core>, events: seq<Event>, i: nat, id: PtyId)
    requires Run(cores, events) && i < |events| && events[i] == Kills(id)
    ensures var c, c' := cores[i], cores[i + 1];
      Gone(c', id) && id !in c'.sessions && c'.gens == c.gens && OthersStay(c, c', id)
  {
    assert cores[i + 1] == Step(cores[i], events[i]);
    hide Recorded;
  }

  // What starts a PTY under an id.
  predicate Starts(e: Event, id: PtyId) {
    e.Spawns? && e.id == id && e.starts
  }

  lemma GoneStep(c: Core, e: Event, id: PtyId)
    requires Allowed(c, e) && Gone(c, id) && !Starts(e, id)
    ensures Gone(Step(c, e), id) && (id !in c.sessions ==> id !in Step(c, e).sessions)
  {
    hide Recorded;
  }

  // What takes the PTY of an id away.
  predicate TakesAway(c: Core, e: Event, id: PtyId) {
    e == Kills(id) || e == KillsAll || (e.Exits? && id in c.ptys && c.ptys[id] == e.gen)
  }

  lemma GoesStep(c: Core, e: Event, id: PtyId)
    requires Allowed(c, e) && SizeOk(c, id) && TakesAway(c, e, id)
    ensures Gone(Step(c, e), id) && (!e.Exits? ==> id !in Step(c, e).sessions)
  {
    hide Recorded;
  }

  // Killed or exited, an id has no PTY and no repaint until one is spawned under it; killed,
  // it has no replay either, whatever its old PTY still prints.
  lemma {:induction false} GoneUntilSpawned(cores: seq<Core>, events: seq<Event>, i: nat, j: nat, id: PtyId)
    requires Run(cores, events) && i < j < |cores| && TakesAway(cores[i], events[i], id)
    requires forall k :: i < k < j ==> !Starts(events[k], id)
    ensures Gone(cores[j], id) && (!events[i].Exits? ==> id !in cores[j].sessions)
    decreases j
  {
    RunStep(cores, events, j - 1);
    if i + 1 < j {
      hide Run, Step, Gone, Allowed, Starts;
      GoneUntilSpawned(cores, events, i, j - 1, id);
      GoneStep(cores[j - 1], events[j - 1], id);
    } else {
      RunKeepsInv(cores, events, i);
      assert SizeOk(cores[i], id);
      hide Run, Step, Gone, Allowed, SizeOk;
      GoesStep(cores[i], events[i], id);
    }
  }

  // Nothing is left of any PTY once all are killed.
  lemma KillAllDoes(cores: seq<Core>, events: seq<Event>, i: nat)
    requires Run(cores, events) && i < |events| && events[i] == KillsAll
    ensures var c' := cores[i + 1]; c'.ptys == map[] && c'.sessions == map[] && c'.repaintTimers == map[] && c'.gens == cores[i].gens
  {
    assert cores[i + 1] == Step(cores[i], events[i]);
    hide Recorded;
  }

  // ----- The manager --------------------------------------------------------------------------

  class PtyManager {
    var ptys: map<PtyId, Gen>
    var sessions: map<PtyId, Session>
    var repaintTimers: map<PtyId, TimerId>
    // The PTYs and the timers themselves.
    var gens: map<Gen, Pty>
    var timers: map<TimerId, Timer>

    ghost function Now(): Core
      reads this
    {
      Core(ptys, sessions, repaintTimers, gens, timers)
    }

    constructor ()
      ensures Now() == Core(map[], map[], map[], map[], map[])
    {
      ptys, sessions, repaintTimers, gens, timers := map[], map[], map[], map[], map[];
    }

    method Cancel(id: PtyId)
      modifies `repaintTimers
      ensures repaintTimers == old(repaintTimers) - {id}
    {
      repaintTimers := repaintTimers - {id};
    }

    method SpawnPty(id: PtyId, g: Gen, size: Size, starts: bool)
      modifies this
      ensures Now() == Spawn(old(Now()), id, g, size, starts)
    {
      if !starts { return; }
      gens := gens[g := Pty(id, size, size, "", false)];
      Cancel(id);
      ptys := ptys[id := g];
      sessions := sessions[id := Session([], 0)];
    }

    method OnData(g: Gen, data: string)
      requires g in gens
      requires forall id :: id in sessions ==> sessions[id].chars == |Join(sessions[id].chunks)|
      modifies this
      ensures Now() == Data(old(Now()), g, data)
    {
      hide Recorded, Join;
      var id := gens[g].id;
      if id in ptys && ptys[id] == g && id in sessions {
        var session := Record(sessions[id], data);
        sessions := sessions[id := session];
      }
      gens := gens[g := gens[g].(printed := gens[g].printed + data)];
    }

    method OnExit(g: Gen)
      requires g in gens
      modifies this
      ensures Now() == Exit(old(Now()), g)
    {
      var id := gens[g].id;
      if id in ptys && ptys[id] == g {
        Cancel(id);
        ptys := ptys - {id};
      }
    }

    method ResizePty(id: PtyId, size: Size, repaint: bool, t: TimerId)
      modifies this
      ensures Now() == Resize(old(Now()), id, size, repaint, t)
      // No other PTY, and no other's timer, is touched.
      ensures ptys == old(ptys) && sessions == old(sessions) && repaintTimers - {id} == old(repaintTimers) - {id}
      ensures forall g :: g in old(gens) && !(id in ptys && ptys[id] == g) ==> g in gens && gens[g] == old(gens[g])
      // The size is set and no timer pends, or it is bounced and one does, for this PTY and
      // this size; or the size stays, and the timer there was is gone.
      ensures id in ptys && ptys[id] in gens ==>
        var p, was := gens[ptys[id]], old(gens[ptys[id]]);
        && p.requested == size
        && if was.dead || !Takes(if repaint then Bounce(size) else size) then p.size == was.size && id !in repaintTimers
           else if !repaint then p.size == size && id !in repaintTimers
           else p.size == Bounce(size) && id in repaintTimers && timers[repaintTimers[id]] == Timer(id, ptys[id], size)
    {
      Cancel(id);
      if id !in ptys || ptys[id] !in gens { return; }
      var g := ptys[id];
      gens := gens[g := gens[g].(requested := size)];
      if gens[g].dead || !Takes(if repaint then Bounce(size) else size) { return; }
      if !repaint {
        gens := gens[g := gens[g].(size := size)];
        return;
      }
      gens := gens[g := gens[g].(size := Bounce(size))];
      timers := timers[t := Timer(id, g, size)];
      repaintTimers := repaintTimers[id := t];
    }

    method OnTimer(t: TimerId)
      requires t in timers
      modifies this
      ensures Now() == Fire(old(Now()), t)
    {
      var timer := timers[t];
      if timer.id !in repaintTimers || repaintTimers[timer.id] != t { return; }
      Cancel(timer.id);
      if timer.id !in ptys || ptys[timer.id] != timer.gen || timer.gen !in gens { return; }
      if gens[timer.gen].dead || !Takes(timer.size) { return; }
      gens := gens[timer.gen := gens[timer.gen].(size := timer.size)];
    }

    method KillPty(id: PtyId)
      modifies this
      ensures Now() == Kill(old(Now()), id)
      ensures id !in ptys && id !in sessions && id !in repaintTimers && gens == old(gens)
      ensures ptys == old(ptys) - {id} && sessions == old(sessions) - {id}
    {
      sessions := sessions - {id};
      Cancel(id);
      ptys := ptys - {id};
    }

    method KillAllPtys()
      modifies this
      ensures Now() == KillAll(old(Now()))
    {
      while repaintTimers != map[]
        modifies `repaintTimers
        decreases |repaintTimers|
      {
        var id :| id in repaintTimers;
        Cancel(id);
      }
      ptys, sessions := map[], map[];
    }
  }
}
