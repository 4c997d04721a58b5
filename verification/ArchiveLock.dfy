/**
 The lock in front of the shared notepad archive, as a protocol over the only
 file operations it uses: mkdir, create, rename, readdir, unlink, rmdir and a
 liveness probe.

 Every operation is one atomic step and any process may stop for good between
 any two of them, so a run is an arbitrary interleaving of the steps below by
 any number of processes.
 */
module ArchiveLock {

  // One call of acquire: the process that made it and the call's own UUID.
  datatype Owner = Owner(pid: nat, uuid: nat)

  datatype Path = Lock | Candidate(owner: Owner)

  // Every directory that exists, with the names of the files inside it.
  type Dirs = map<Path, set<Owner>>

  // ----- POSIX directory operations ---------------------------------------

  // A directory may be renamed over nothing or over an empty directory.
  predicate RenameAllowed(dirs: Dirs, from: Path, to: Path) {
    from != to && from in dirs && (to in dirs ==> dirs[to] == {})
  }

  function Rename(dirs: Dirs, from: Path, to: Path): Dirs
    requires RenameAllowed(dirs, from, to)
  {
    (dirs - {from})[to := dirs[from]]
  }

  // ENOENT, on the directory or on the name, changes nothing.
  function Unlink(dirs: Dirs, dir: Path, name: Owner): Dirs {
    if dir in dirs then dirs[dir := dirs[dir] - {name}] else dirs
  }

  // ENOENT and ENOTEMPTY change nothing.
  function Rmdir(dirs: Dirs, dir: Path): Dirs {
    if dir in dirs && dirs[dir] == {} then dirs - {dir} else dirs
  }

  // ----- The protocol ------------------------------------------------------

  // What one call of acquire, or of the release it returned, does next.
  datatype Phase =
    | MakeCandidate
    | WriteOwnerFile
    | TryRename
    | ReadOwners
    | Probe(names: seq<Owner>)
    | UnlinkDead(name: Owner, names: seq<Owner>)
    | RemoveLock
    | CheckDeadline
    | DropFile(won: bool)
    | DropDir(won: bool)
    | Holding
    | ReleaseDir
    | Ended

  datatype State = State(dirs: Dirs, phase: map<Owner, Phase>, dead: set<nat>)

  datatype Event =
    | Crash(pid: nat)
    | Start(o: Owner)
    | Mkdir(o: Owner)
    | SetupFails(o: Owner)
    | CreateFile(o: Owner)
    | RenameWins(o: Owner)
    | RenameRefused(o: Owner)
    | ListOwners(o: Owner, names: seq<Owner>)
    | ProbeSkips(o: Owner)
    | ProbeFindsDead(o: Owner)
    | Reap(o: Owner)
    | RmdirLock(o: Owner)
    | Retry(o: Owner)
    | GiveUp(o: Owner)
    | Throws(o: Owner)
    | FinallyUnlink(o: Owner)
    | FinallyRmdir(o: Owner)
    | ReleaseUnlink(o: Owner)
    | ReleaseRmdir(o: Owner)

  predicate Running(s: State, o: Owner) {
    o in s.phase && o.pid !in s.dead
  }

  function Move(s: State, o: Owner, p: Phase): State {
    s.(phase := s.phase[o := p])
  }

  // Inside the try block, before the candidate has been renamed.
  predicate Contending(p: Phase) {
    p.TryRename? || p.ReadOwners? || p.Probe? || p.UnlinkDead? || p.RemoveLock? || p.CheckDeadline?
  }

  ghost predicate Init(s: State) {
    && s.phase == map[]
    && s.dead == {}
    && s.dirs.Keys <= {Lock}
    // A file left by an earlier run may already sit in the lock directory.
    && (Lock in s.dirs ==> forall x, y :: x in s.dirs[Lock] && y in s.dirs[Lock] ==> x == y)
  }

  ghost predicate Next(s: State, e: Event, t: State) {
    match e
    case Crash(pid) => t == s.(dead := s.dead + {pid})
    case Start(o) =>
      // The UUID is fresh: no file and no earlier call carries this name.
      && o !in s.phase && o.pid !in s.dead
      && (Lock in s.dirs ==> o !in s.dirs[Lock])
      && t == Move(s, o, MakeCandidate)
    case Mkdir(o) =>
      && Running(s, o) && s.phase[o] == MakeCandidate
      && Candidate(o) !in s.dirs
      && t == Move(s, o, WriteOwnerFile).(dirs := s.dirs[Candidate(o) := {}])
    case SetupFails(o) =>
      && Running(s, o) && s.phase[o] in {MakeCandidate, WriteOwnerFile}
      && t == Move(s, o, Ended)
    case CreateFile(o) =>
      && Running(s, o) && s.phase[o] == WriteOwnerFile
      && Candidate(o) in s.dirs
      && t == Move(s, o, TryRename).(dirs := s.dirs[Candidate(o) := s.dirs[Candidate(o)] + {o}])
    case RenameWins(o) =>
      && Running(s, o) && s.phase[o] == TryRename
      && RenameAllowed(s.dirs, Candidate(o), Lock)
      && t == Move(s, o, DropFile(true)).(dirs := Rename(s.dirs, Candidate(o), Lock))
    case RenameRefused(o) =>
      // ENOTEMPTY, EEXIST, EPERM and EACCES all read as contention.
      && Running(s, o) && s.phase[o] == TryRename
      && t == Move(s, o, ReadOwners)
    case ListOwners(o, names) =>
      && Running(s, o) && s.phase[o] == ReadOwners
      && (forall n :: n in names <==> Lock in s.dirs && n in s.dirs[Lock])
      && t == Move(s, o, Probe(names))
    case ProbeSkips(o) =>
      // Alive, or a reused process id that reads as alive.
      && Running(s, o) && s.phase[o].Probe? && s.phase[o].names != []
      && t == Move(s, o, Probe(s.phase[o].names[1..]))
    case ProbeFindsDead(o) =>
      && Running(s, o) && s.phase[o].Probe? && s.phase[o].names != []
      && s.phase[o].names[0].pid in s.dead
      && t == Move(s, o, UnlinkDead(s.phase[o].names[0], s.phase[o].names[1..]))
    case Reap(o) =>
      && Running(s, o) && s.phase[o].UnlinkDead?
      && t == Move(s, o, Probe(s.phase[o].names)).(dirs := Unlink(s.dirs, Lock, s.phase[o].name))
    case RmdirLock(o) =>
      && Running(s, o) && s.phase[o] == Probe([])
      && t == Move(s, o, CheckDeadline).(dirs := Rmdir(s.dirs, Lock))
    case Retry(o) =>
      && Running(s, o) && s.phase[o] == CheckDeadline
      && t == Move(s, o, TryRename)
    case GiveUp(o) =>
      && Running(s, o) && s.phase[o] == CheckDeadline
      && t == Move(s, o, DropFile(false))
    case Throws(o) =>
      && Running(s, o) && Contending(s.phase[o])
      && t == Move(s, o, DropFile(false))
    case FinallyUnlink(o) =>
      && Running(s, o) && s.phase[o].DropFile?
      && t == Move(s, o, DropDir(s.phase[o].won)).(dirs := Unlink(s.dirs, Candidate(o), o))
    case FinallyRmdir(o) =>
      && Running(s, o) && s.phase[o].DropDir?
      && t == Move(s, o, if s.phase[o].won then Holding else Ended).(dirs := Rmdir(s.dirs, Candidate(o)))
    case ReleaseUnlink(o) =>
      && Running(s, o) && s.phase[o] == Holding
      && t == Move(s, o, ReleaseDir).(dirs := Unlink(s.dirs, Lock, o))
    case ReleaseRmdir(o) =>
      && Running(s, o) && s.phase[o] == ReleaseDir
      && t == Move(s, o, Ended).(dirs := Rmdir(s.dirs, Lock))
  }

  // A finite run: events[i] takes states[i] to states[i + 1].
  ghost predicate Run(states: seq<State>, events: seq<Event>) {
    && |states| == |events| + 1
    && Init(states[0])
    && forall i :: 0 <= i < |events| ==> Next(states[i], events[i], states[i + 1])
  }

  // ----- Safety -------------------------------------------------------------

  // From the winning rename until the holder unlinks its own file.
  predicate Owns(s: State, o: Owner) {
    && Running(s, o)
    && (s.phase[o] == DropFile(true) || s.phase[o] == DropDir(true) || s.phase[o] == Holding)
  }

  ghost predicate LockIs(s: State, o: Owner) {
    Lock in s.dirs && s.dirs[Lock] == {o}
  }

  ghost predicate AtMostOneFile(s: State) {
    Lock in s.dirs ==> forall x, y :: x in s.dirs[Lock] && y in s.dirs[Lock] ==> x == y
  }

  ghost predicate CandidatesPrivate(s: State) {
    forall o :: Candidate(o) in s.dirs ==> o in s.phase && s.dirs[Candidate(o)] <= {o}
  }

  // The holder's file is alone in the lock directory, and its candidate is gone.
  ghost predicate OwnersHoldTheLock(s: State) {
    forall o :: Owns(s, o) ==> LockIs(s, o) && Candidate(o) !in s.dirs
  }

  ghost predicate ContendersAreReady(s: State) {
    forall o :: Running(s, o) && Contending(s.phase[o]) ==>
      Candidate(o) in s.dirs && s.dirs[Candidate(o)] == {o}
  }

  ghost predicate ReapersNameTheDead(s: State) {
    forall o :: Running(s, o) && s.phase[o].UnlinkDead? ==> s.phase[o].name.pid in s.dead
  }

  // A live call whose file is in the lock directory holds the lock.
  ghost predicate LiveFilesAreOwners(s: State) {
    forall o :: Running(s, o) && Lock in s.dirs && o in s.dirs[Lock] ==> Owns(s, o)
  }

  ghost predicate Inv(s: State) {
    && AtMostOneFile(s)
    && CandidatesPrivate(s)
    && OwnersHoldTheLock(s)
    && ContendersAreReady(s)
    && ReapersNameTheDead(s)
    && LiveFilesAreOwners(s)
  }

  lemma InitHolds(s: State)
    requires Init(s)
    ensures Inv(s)
  {
  }

  // What every step leaves to a live holder: its file, alone in the lock
  // directory, until the step in which that holder itself unlinks it.
  lemma OwnerKeepsTheLock(s: State, e: Event, t: State, o: Owner)
    requires Inv(s) && Next(s, e, t)
    ensures Owns(t, o) ==> LockIs(t, o) && Candidate(o) !in t.dirs
    ensures Owns(s, o) && o.pid !in t.dead && e != ReleaseUnlink(o) ==> Owns(t, o)
    ensures e == ReleaseUnlink(o) ==> LockIs(s, o) && Lock in t.dirs && t.dirs[Lock] == {}
  {
    if Owns(s, o) {
      assert LockIs(s, o);
      match e {
        case Reap(r) => assert s.phase[r].name.pid in s.dead;
        case ReleaseUnlink(r) => assert Owns(s, r) && LockIs(s, r); assert o in s.dirs[Lock];
        case _ =>
      }
    }
  }

  lemma FilesStaySingle(s: State, e: Event, t: State)
    requires Inv(s) && Next(s, e, t)
    ensures AtMostOneFile(t) && CandidatesPrivate(t)
  {
  }

  lemma ContendersStayReady(s: State, e: Event, t: State)
    requires Inv(s) && Next(s, e, t)
    ensures ContendersAreReady(t)
  {
    forall o | Running(t, o) && Contending(t.phase[o])
      ensures Candidate(o) in t.dirs && t.dirs[Candidate(o)] == {o}
    {
      if e == CreateFile(o) {
        assert s.dirs[Candidate(o)] <= {o};
      } else {
        assert Running(s, o) && Contending(s.phase[o]);
      }
    }
  }

  lemma ReapersStayRight(s: State, e: Event, t: State)
    requires Inv(s) && Next(s, e, t)
    ensures ReapersNameTheDead(t)
  {
  }

  lemma LiveFilesStayOwners(s: State, e: Event, t: State)
    requires Inv(s) && Next(s, e, t)
    ensures LiveFilesAreOwners(t)
  {
  }

  lemma NextKeepsInv(s: State, e: Event, t: State)
    requires Inv(s) && Next(s, e, t)
    ensures Inv(t)
  {
    FilesStaySingle(s, e, t);
    ContendersStayReady(s, e, t);
    ReapersStayRight(s, e, t);
    LiveFilesStayOwners(s, e, t);
    forall o | Owns(t, o)
      ensures LockIs(t, o) && Candidate(o) !in t.dirs
    {
      OwnerKeepsTheLock(s, e, t, o);
    }
  }

  // ----- Every run ----------------------------------------------------------

  lemma {:induction false} RunKeepsInv(states: seq<State>, events: seq<Event>, i: nat)
    requires Run(states, events) && i < |states|
    ensures Inv(states[i])
  {
    if i == 0 {
      InitHolds(states[0]);
    } else {
      RunKeepsInv(states, events, i - 1);
      NextKeepsInv(states[i - 1], events[i - 1], states[i]);
    }
  }

  // At most one live process is ever between acquire and release.
  lemma MutualExclusion(states: seq<State>, events: seq<Event>, i: nat, a: Owner, b: Owner)
    requires Run(states, events) && i < |states|
    requires Owns(states[i], a) && Owns(states[i], b)
    ensures a == b
    ensures Lock in states[i].dirs && states[i].dirs[Lock] == {a}
  {
    RunKeepsInv(states, events, i);
    assert LockIs(states[i], a) && LockIs(states[i], b);
    assert a in states[i].dirs[Lock];
  }

  lemma DeadStayDead(s: State, e: Event, t: State)
    requires Next(s, e, t)
    ensures s.dead <= t.dead
  {
  }

  // A step moves only the call it names, and a holder moves only by releasing.
  lemma StepMovesOne(s: State, e: Event, t: State)
    requires Next(s, e, t)
    ensures t.phase.Keys == s.phase.Keys + if e.Start? then {e.o} else {}
    ensures forall o :: o in s.phase && !(e.Start? && e.o == o) && s.phase[o] == Holding && e != ReleaseUnlink(o) ==> t.phase[o] == Holding
    ensures forall o :: Running(t, o) && o in s.phase ==> Running(s, o)
  {
  }

  // A holder that stays alive and has not released between two states of a run
  // holds the lock throughout, whatever reapers and releasers do meanwhile.
  lemma {:induction false} HolderStays(states: seq<State>, events: seq<Event>, i: nat, j: nat, o: Owner)
    requires Run(states, events) && i <= j < |states|
    requires Owns(states[i], o)
    requires o.pid !in states[j].dead
    requires forall k :: i <= k < j ==> events[k] != ReleaseUnlink(o)
    ensures Owns(states[j], o) && LockIs(states[j], o)
    decreases j
  {
    hide Next;
    RunKeepsInv(states, events, j);
    if i < j {
      RunKeepsInv(states, events, j - 1);
      DeadStayDead(states[j - 1], events[j - 1], states[j]);
      HolderStays(states, events, i, j - 1, o);
      OwnerKeepsTheLock(states[j - 1], events[j - 1], states[j], o);
    }
  }

  // Releasing never meets a missing file: the unlink that would throw finds
  // exactly the releaser's own file, and the next holder's file is never hit.
  lemma ReleaseFindsOwnFile(states: seq<State>, events: seq<Event>, i: nat, o: Owner)
    requires Run(states, events) && i < |events|
    requires events[i] == ReleaseUnlink(o)
    ensures LockIs(states[i], o)
    ensures Lock in states[i + 1].dirs && states[i + 1].dirs[Lock] == {}
  {
    RunKeepsInv(states, events, i);
    OwnerKeepsTheLock(states[i], events[i], states[i + 1], o);
  }

  // Appending the runs of one contender: steps[k] is taken from path[k].
  lemma {:induction false} ExtendRun(states: seq<State>, events: seq<Event>, path: seq<State>, steps: seq<Event>)
    requires Run(states, events)
    requires |path| == |steps| + 1 && path[0] == states[|states| - 1]
    requires forall i :: 0 <= i < |steps| ==> Next(path[i], steps[i], path[i + 1])
    ensures Run(states + path[1..], events + steps)
  {
    hide Next;
    var all, es := states + path[1..], events + steps;
    forall i | 0 <= i < |es|
      ensures Next(all[i], es[i], all[i + 1])
    {
      if i < |events| {
        assert Next(states[i], events[i], states[i + 1]);
      } else {
        assert Next(path[i - |events|], steps[i - |events|], path[i - |events| + 1]);
      }
    }
  }

  function TakeoverSteps(o: Owner, d: Owner): seq<Event> {
    [ListOwners(o, [d]), ProbeFindsDead(o), Reap(o), RmdirLock(o), Retry(o), RenameWins(o)]
  }

  // A lock left behind by a dead process is not lost: in every reachable state
  // whose only lock file belongs to a dead process, a contender that has just
  // been refused takes the lock over with its own next six steps.
  lemma DeadHolderIsReplaced(states: seq<State>, events: seq<Event>, o: Owner, d: Owner)
    returns (path: seq<State>)
    requires Run(states, events)
    requires var s := states[|states| - 1];
      Running(s, o) && s.phase[o] == ReadOwners && LockIs(s, d) && d.pid in s.dead
    ensures Run(states + path, events + TakeoverSteps(o, d))
    ensures |path| == 6 && Owns(path[5], o)
  {
    hide Next;
    var s := states[|states| - 1];
    RunKeepsInv(states, events, |states| - 1);
    var s1, s2, s3 := ReapSteps(s, o, d);
    var s4, s5, s6 := RenameSteps(s3, o);
    path := [s1, s2, s3, s4, s5, s6];
    ExtendRun(states, events, [s] + path, TakeoverSteps(o, d));
    assert ([s] + path)[1..] == path;
  }

  lemma ReapSteps(s: State, o: Owner, d: Owner) returns (s1: State, s2: State, s3: State)
    requires Running(s, o) && s.phase[o] == ReadOwners && LockIs(s, d) && d.pid in s.dead
    ensures Next(s, ListOwners(o, [d]), s1)
    ensures Next(s1, ProbeFindsDead(o), s2)
    ensures Next(s2, Reap(o), s3)
    ensures s3 == Move(s, o, Probe([])).(dirs := s.dirs[Lock := {}])
  {
    s1 := Move(s, o, Probe([d]));
    s2 := Move(s, o, UnlinkDead(d, []));
    s3 := Move(s, o, Probe([])).(dirs := s.dirs[Lock := {}]);
    assert [d][1..] == [] && s.dirs[Lock] - {d} == {};
  }

  lemma RenameSteps(s: State, o: Owner) returns (s1: State, s2: State, s3: State)
    requires Running(s, o) && s.phase[o] == Probe([]) && Lock in s.dirs && s.dirs[Lock] == {}
    requires Candidate(o) in s.dirs
    ensures Next(s, RmdirLock(o), s1)
    ensures Next(s1, Retry(o), s2)
    ensures Next(s2, RenameWins(o), s3)
    ensures Owns(s3, o)
  {
    s1 := Move(s, o, CheckDeadline).(dirs := s.dirs - {Lock});
    s2 := Move(s1, o, TryRename);
    s3 := Move(s2, o, DropFile(true)).(dirs := Rename(s2.dirs, Candidate(o), Lock));
  }

  function AcquireSteps(o: Owner): seq<Event> {
    [Mkdir(o), CreateFile(o), RenameWins(o), FinallyUnlink(o), FinallyRmdir(o)]
  }

  // A free lock is taken: a call that has just begun, with nothing in its way, holds it after
  // its own next five steps, its file alone in the lock directory and no candidate left.
  lemma FreeLockIsTaken(states: seq<State>, events: seq<Event>, o: Owner) returns (path: seq<State>)
    requires Run(states, events)
    requires var s := states[|states| - 1];
      && Running(s, o) && s.phase[o] == MakeCandidate && Candidate(o) !in s.dirs
      && (Lock in s.dirs ==> s.dirs[Lock] == {})
    ensures Run(states + path, events + AcquireSteps(o))
    ensures |path| == 5 && path[4].phase == states[|states| - 1].phase[o := Holding]
    ensures path[4].dirs == states[|states| - 1].dirs[Lock := {o}]
  {
    hide Next;
    var s := states[|states| - 1];
    var s1, s2, s3, s4, s5 := WinSteps(s, o);
    path := [s1, s2, s3, s4, s5];
    ExtendRun(states, events, [s] + path, AcquireSteps(o));
    assert ([s] + path)[1..] == path;
  }

  lemma WinSteps(s: State, o: Owner) returns (s1: State, s2: State, s3: State, s4: State, s5: State)
    requires Running(s, o) && s.phase[o] == MakeCandidate && Candidate(o) !in s.dirs
    requires Lock in s.dirs ==> s.dirs[Lock] == {}
    ensures Next(s, Mkdir(o), s1)
    ensures Next(s1, CreateFile(o), s2)
    ensures Next(s2, RenameWins(o), s3)
    ensures Next(s3, FinallyUnlink(o), s4)
    ensures Next(s4, FinallyRmdir(o), s5)
    ensures s5.phase == s.phase[o := Holding] && s5.dirs == s.dirs[Lock := {o}]
  {
    hide Next;
    s1, s2 := CandidateSteps(s, o);
    s3, s4, s5 := RenamedSteps(s2, o);
  }

  lemma CandidateSteps(s: State, o: Owner) returns (s1: State, s2: State)
    requires Running(s, o) && s.phase[o] == MakeCandidate && Candidate(o) !in s.dirs
    ensures Next(s, Mkdir(o), s1)
    ensures Next(s1, CreateFile(o), s2)
    ensures s2 == Move(s, o, TryRename).(dirs := s.dirs[Candidate(o) := {o}])
  {
    s1 := Move(s, o, WriteOwnerFile).(dirs := s.dirs[Candidate(o) := {}]);
    s2 := Move(s, o, TryRename).(dirs := s.dirs[Candidate(o) := {o}]);
    assert s1.dirs[Candidate(o)] + {o} == {o};
  }

  lemma RenamedSteps(s: State, o: Owner) returns (s1: State, s2: State, s3: State)
    requires Running(s, o) && s.phase[o] == TryRename && Candidate(o) in s.dirs && s.dirs[Candidate(o)] == {o}
    requires Lock in s.dirs ==> s.dirs[Lock] == {}
    ensures Next(s, RenameWins(o), s1)
    ensures Next(s1, FinallyUnlink(o), s2)
    ensures Next(s2, FinallyRmdir(o), s3)
    ensures s3.phase == s.phase[o := Holding] && s3.dirs == (s.dirs - {Candidate(o)})[Lock := {o}]
  {
    s1 := Move(s, o, DropFile(true)).(dirs := Rename(s.dirs, Candidate(o), Lock));
    s2 := Move(s1, o, DropDir(true));
    s3 := Move(s2, o, Holding);
  }

  // A holder that releases leaves no lock directory behind.
  lemma ReleaseFrees(states: seq<State>, events: seq<Event>, o: Owner) returns (path: seq<State>)
    requires Run(states, events)
    requires var s := states[|states| - 1]; Running(s, o) && s.phase[o] == Holding
    ensures Run(states + path, events + [ReleaseUnlink(o), ReleaseRmdir(o)])
    ensures |path| == 2 && path[1].phase == states[|states| - 1].phase[o := Ended] && path[1].dirs == states[|states| - 1].dirs - {Lock}
  {
    hide Inv;
    var s := states[|states| - 1];
    RunKeepsInv(states, events, |states| - 1);
    assert LockIs(s, o) by { assert OwnersHoldTheLock(s) && Owns(s, o); }
    var s1 := Move(s, o, ReleaseDir).(dirs := s.dirs[Lock := {}]);
    var s2 := Move(s, o, Ended).(dirs := s.dirs - {Lock});
    assert s.dirs[Lock] - {o} == {};
    assert Next(s, ReleaseUnlink(o), s1) && Next(s1, ReleaseRmdir(o), s2);
    path := [s1, s2];
    ExtendRun(states, events, [s] + path, [ReleaseUnlink(o), ReleaseRmdir(o)]);
    assert ([s] + path)[1..] == path;
  }

  // A call that gives up, or throws, takes its own candidate with it and touches nothing else.
  lemma LoserLeavesNoTrace(states: seq<State>, events: seq<Event>, o: Owner, e: Event) returns (path: seq<State>)
    requires Run(states, events)
    requires var s := states[|states| - 1];
      Running(s, o) && (e == Throws(o) || e == GiveUp(o)) && Contending(s.phase[o]) && (e.GiveUp? ==> s.phase[o] == CheckDeadline)
    ensures Run(states + path, events + [e, FinallyUnlink(o), FinallyRmdir(o)])
    ensures |path| == 3 && path[2].phase == states[|states| - 1].phase[o := Ended]
        && path[2].dirs == states[|states| - 1].dirs - {Candidate(o)}
  {
    hide Inv;
    var s := states[|states| - 1];
    RunKeepsInv(states, events, |states| - 1);
    assert Candidate(o) in s.dirs && s.dirs[Candidate(o)] == {o} by { assert ContendersAreReady(s); }
    var s1 := Move(s, o, DropFile(false));
    var s2 := Move(s, o, DropDir(false)).(dirs := s.dirs[Candidate(o) := {}]);
    var s3 := Move(s, o, Ended).(dirs := s.dirs - {Candidate(o)});
    assert s.dirs[Candidate(o)] - {o} == {};
    assert Next(s, e, s1) && Next(s1, FinallyUnlink(o), s2) && Next(s2, FinallyRmdir(o), s3);
    path := [s1, s2, s3];
    ExtendRun(states, events, [s] + path, [e, FinallyUnlink(o), FinallyRmdir(o)]);
    assert ([s] + path)[1..] == path;
  }
}
