/**
 The shared notepad archive: load, save, recovery and teardown mutation as
 transactions under the lock, over files replaced by write-then-rename.

 A run interleaves any number of transactions with each other and with lock
 attempts; a process may die, and a transaction may fail, between any two steps.
 The history of installed versions is kept beside the files as a log.
 */
module ArchiveStore {
  import opened Common
  import L = ArchiveLock

  // The bytes of one file: an envelope this code wrote (a fresh revision UUID
  // around the archive text, or around nothing), or any other text.
  datatype Bytes = Envelope(revision: nat, raw: Option<string>) | Plain(text: string)

  // The digest naming a version: an injective function of the bytes.
  datatype Revision = NoRevision | Digest(bytes: Bytes)

  function RawOf(b: Bytes): Option<string> {
    if b.Envelope? then b.raw else Some(b.text)
  }

  function RevisionOf(b: Bytes): Revision {
    if RawOf(b) == None then NoRevision else Digest(b)
  }

  // The archive's own format, used only through these two functions: whether a
  // text reads as an archive, and the text one mutation turns it into.
  datatype Format = Format(readable: string -> bool, mutate: (nat, Option<string>) -> string)

  predicate Unreadable(f: Format, b: Bytes) {
    RawOf(b).Some? && !f.readable(RawOf(b).value)
  }

  datatype Op = Load | Save(json: string, base: Revision) | Reset | Mutate(mutation: nat)

  datatype Result =
    | Nothing
    | Archive(raw: string, revision: Revision)
    | Ok
    | Conflict
    | AlreadyReadable
    | Refused
    | Failed

  // Where a transaction stands. `base` is the bytes it read, `temp` names the
  // temporary file it has written. `at` counts the versions installed when the
  // transaction took effect.
  datatype Stage =
    | Waiting
    | Importing(legacy: Option<string>, next: Bytes)
    | ImportTemp(legacy: Option<string>, next: Bytes, temp: nat)
    | Loaded(base: Bytes)
    | Quarantining(base: Bytes)
    | QuarantineTemp(base: Bytes, temp: nat)
    | Writing(base: Bytes, next: Bytes)
    | WriteTemp(base: Bytes, next: Bytes, temp: nat)
    | Done(result: Result, at: nat)

  datatype Txn = Txn(op: Op, began: nat, stage: Stage)

  datatype Cause = Import(legacy: Option<string>) | By(op: Op)

  // One version put at the main path.
  datatype Install = Install(who: L.Owner, cause: Cause, next: Bytes)

  datatype State = State(
    lock: L.State,
    main: Option<Bytes>,
    quarantine: set<Bytes>,
    temps: map<nat, Bytes>,
    used: set<nat>,
    txns: map<L.Owner, Txn>,
    log: seq<Install>)

  datatype Event =
    | LockStep(e: L.Event)
    | Begin(o: L.Owner, op: Op)
    | Read(o: L.Owner, legacy: Option<string>, uuid: nat)
    | StageTemp(o: L.Owner, temp: nat)
    | Operate(o: L.Owner, uuid: nat)
    | Commit(o: L.Owner, uuid: nat, cleaned: bool)
    | Fail(o: L.Owner)

  // The lock is held and the transaction is between its read and its result.
  predicate Active(stage: Stage) {
    !stage.Waiting? && !stage.Done?
  }

  predicate InTransaction(s: State, o: L.Owner) {
    L.Running(s.lock, o) && s.lock.phase[o] == L.Holding && o in s.txns
  }

  function To(s: State, o: L.Owner, stage: Stage): State
    requires o in s.txns
  {
    s.(txns := s.txns[o := s.txns[o].(stage := stage)])
  }

  function Finish(s: State, o: L.Owner, r: Result): State
    requires o in s.txns
  {
    To(s, o, Done(r, |s.log|))
  }

  // What the operation decides once the bytes are in hand.
  function Decide(f: Format, s: State, o: L.Owner, base: Bytes, uuid: nat): State
    requires o in s.txns
  {
    var raw := RawOf(base);
    match s.txns[o].op
    case Load =>
      Finish(s, o, if raw.None? then Nothing else Archive(raw.value, RevisionOf(base)))
    case Save(json, wanted) =>
      if wanted != RevisionOf(base) then Finish(s, o, Conflict)
      else To(s, o, Writing(base, Envelope(uuid, Some(json)))).(used := s.used + {uuid})
    case Reset =>
      if !Unreadable(f, base) then Finish(s, o, AlreadyReadable)
      else To(s, o, Quarantining(base))
    case Mutate(m) =>
      if Unreadable(f, base) then Finish(s, o, Refused)
      else To(s, o, Writing(base, Envelope(uuid, Some(f.mutate(m, raw))))).(used := s.used + {uuid})
  }

  // The rename that publishes a temporary file, and the removal of what it leaves: when
  // that fails, a write that is done is reported as failed.
  function Publish(s: State, o: L.Owner, uuid: nat, cleaned: bool): State
    requires o in s.txns
    requires var st := s.txns[o].stage;
      (st.ImportTemp? || st.QuarantineTemp? || st.WriteTemp?) && st.temp in s.temps
  {
    var st := s.txns[o].stage;
    var s' := s.(temps := s.temps - {st.temp});
    var bytes := s.temps[st.temp];
    match st
    case ImportTemp(legacy, next, _) =>
      To(s', o, Loaded(next)).(main := Some(bytes), log := s.log + [Install(o, Import(legacy), bytes)])
    case QuarantineTemp(base, _) =>
      To(s', o, Writing(base, Envelope(uuid, None))).(
        quarantine := s.quarantine + {bytes}, used := s.used + {uuid})
    case WriteTemp(_, _, _) =>
      var log := s.log + [Install(o, By(s.txns[o].op), bytes)];
      To(s', o, Done(if cleaned then Ok else Failed, |log|)).(main := Some(bytes), log := log)
  }

  function Contents(stage: Stage): Option<Bytes> {
    match stage
    case Importing(_, next) => Some(next)
    case Quarantining(base) => Some(base)
    case Writing(_, next) => Some(next)
    case _ => None
  }

  function WithTemp(stage: Stage, temp: nat): Stage {
    match stage
    case Importing(legacy, next) => ImportTemp(legacy, next, temp)
    case Quarantining(base) => QuarantineTemp(base, temp)
    case Writing(base, next) => WriteTemp(base, next, temp)
    case _ => stage
  }

  ghost predicate Init(s: State) {
    && L.Init(s.lock)
    && s.quarantine == {} && s.temps == map[] && s.txns == map[] && s.log == []
    && (s.main.Some? && s.main.value.Envelope? ==> s.main.value.revision in s.used)
  }

  ghost predicate Next(f: Format, s: State, e: Event, t: State) {
    match e
    case LockStep(le) =>
      // A transaction releases the lock only once it has its result, and every
      // call of acquire belongs to a transaction.
      && !le.Start?
      && (le.ReleaseUnlink? ==> le.o in s.txns && s.txns[le.o].stage.Done?)
      && t == s.(lock := t.lock) && L.Next(s.lock, le, t.lock)
    case Begin(o, op) =>
      && L.Next(s.lock, L.Start(o), t.lock)
      && t == s.(lock := t.lock, txns := s.txns[o := Txn(op, |s.log|, Waiting)])
    case Read(o, legacy, uuid) =>
      && InTransaction(s, o) && s.txns[o].stage.Waiting?
      && uuid !in s.used
      && t == if s.main.Some? then To(s, o, Loaded(s.main.value))
              else To(s, o, Importing(legacy, Envelope(uuid, legacy))).(used := s.used + {uuid})
    case StageTemp(o, temp) =>
      && InTransaction(s, o) && Contents(s.txns[o].stage).Some?
      && temp !in s.temps
      && t == To(s, o, WithTemp(s.txns[o].stage, temp)).(temps := s.temps[temp := Contents(s.txns[o].stage).value])
    case Operate(o, uuid) =>
      && InTransaction(s, o) && s.txns[o].stage.Loaded?
      && uuid !in s.used
      && t == Decide(f, s, o, s.txns[o].stage.base, uuid)
    case Commit(o, uuid, cleaned) =>
      && InTransaction(s, o)
      && (var st := s.txns[o].stage;
          (st.ImportTemp? || st.QuarantineTemp? || st.WriteTemp?) && st.temp in s.temps)
      && uuid !in s.used
      && t == Publish(s, o, uuid, cleaned)
    case Fail(o) =>
      && InTransaction(s, o) && !s.txns[o].stage.Done?
      && t == Finish(s, o, Failed)
  }

  ghost predicate Run(f: Format, states: seq<State>, events: seq<Event>) {
    && |states| == |events| + 1
    && Init(states[0])
    && forall i :: 0 <= i < |events| ==> Next(f, states[i], events[i], states[i + 1])
  }

  // ----- The serial history -------------------------------------------------

  // What the main path holds after a history that started from `first`.
  function Current(first: Option<Bytes>, log: seq<Install>): Option<Bytes> {
    if log == [] then first else Some(log[|log| - 1].next)
  }

  // What one transaction may do to the version it finds: the archive's whole
  // sequential specification.
  predicate Legal(f: Format, before: Option<Bytes>, cause: Cause, next: Bytes) {
    && next.Envelope?
    && match cause
       case Import(legacy) => before.None? && next.raw == legacy
       case By(Load) => false
       case By(Save(json, base)) =>
         before.Some? && RevisionOf(before.value) == base && next.raw == Some(json)
       case By(Reset) =>
         before.Some? && Unreadable(f, before.value) && next.raw == None
       case By(Mutate(m)) =>
         && before.Some? && !Unreadable(f, before.value)
         && next.raw == Some(f.mutate(m, RawOf(before.value)))
  }

  ghost predicate LegalHistory(f: Format, first: Option<Bytes>, log: seq<Install>) {
    forall k :: 0 <= k < |log| ==> Legal(f, Current(first, log[..k]), log[k].cause, log[k].next)
  }

  // The answer a transaction gave is the one the serial history gives at the
  // point where it took effect.
  predicate ResultOk(f: Format, first: Option<Bytes>, log: seq<Install>, o: L.Owner, x: Txn)
    requires x.stage.Done?
  {
    var at := x.stage.at;
    && x.began <= at <= |log|
    && var now := Current(first, log[..at]);
       match x.stage.result
       case Nothing => x.op.Load? && now.Some? && RawOf(now.value).None?
       case Archive(raw, revision) =>
         x.op.Load? && now.Some? && RawOf(now.value) == Some(raw) && revision == Digest(now.value)
       case Ok => !x.op.Load? && x.began < at && log[at - 1].who == o && log[at - 1].cause == By(x.op)
       case Conflict => x.op.Save? && now.Some? && RevisionOf(now.value) != x.op.base
       case AlreadyReadable => x.op.Reset? && now.Some? && !Unreadable(f, now.value)
       case Refused => x.op.Mutate? && now.Some? && Unreadable(f, now.value)
       case Failed => true
  }

  // Version 0 is what was there first; version k is what log[k - 1] installed.
  function Version(first: Option<Bytes>, log: seq<Install>, k: nat): Option<Bytes>
    requires k <= |log|
  {
    Current(first, log[..k])
  }

  predicate Carries(b: Option<Bytes>, uuid: nat) {
    b.Some? && b.value.Envelope? && b.value.revision == uuid
  }

  // No two versions carry the same revision, and every revision was minted.
  ghost predicate FreshVersions(first: Option<Bytes>, log: seq<Install>, used: set<nat>) {
    && (forall k :: 0 <= k < |log| ==> log[k].next.Envelope? && log[k].next.revision in used)
    && (forall k :: 0 <= k < |log| ==> !Carries(first, log[k].next.revision))
    && (forall j, k :: 0 <= j < k < |log| ==> log[j].next.revision != log[k].next.revision)
    && (first.Some? && first.value.Envelope? ==> first.value.revision in used)
  }

  ghost predicate Unpublished(first: Option<Bytes>, log: seq<Install>, used: set<nat>, b: Bytes) {
    && b.Envelope? && b.revision in used
    && !Carries(first, b.revision)
    && forall k :: 0 <= k < |log| ==> log[k].next.Envelope? && log[k].next.revision != b.revision
  }

  // ----- Invariant ------------------------------------------------------------

  // A live transaction's view of the files is still true of them.
  ghost predicate ViewOk(f: Format, first: Option<Bytes>, s: State, x: Txn) {
    match x.stage
    case Waiting => true
    case Importing(legacy, next) => s.main.None? && Unpublished(first, s.log, s.used, next) && next.raw == legacy
    case ImportTemp(legacy, next, temp) =>
      && s.main.None? && Unpublished(first, s.log, s.used, next) && next.raw == legacy
      && temp in s.temps && s.temps[temp] == next
    case Loaded(base) => s.main == Some(base)
    case Quarantining(base) => s.main == Some(base) && x.op.Reset? && Unreadable(f, base)
    case QuarantineTemp(base, temp) =>
      && s.main == Some(base) && x.op.Reset? && Unreadable(f, base)
      && temp in s.temps && s.temps[temp] == base
    case Writing(base, next) => WriteOk(f, first, s, x, base, next)
    case WriteTemp(base, next, temp) =>
      && WriteOk(f, first, s, x, base, next)
      && temp in s.temps && s.temps[temp] == next
    case Done(_, _) => true
  }

  ghost predicate WriteOk(f: Format, first: Option<Bytes>, s: State, x: Txn, base: Bytes, next: Bytes) {
    && s.main == Some(base)
    && Unpublished(first, s.log, s.used, next)
    && Legal(f, s.main, By(x.op), next)
    && (x.op.Reset? ==> base in s.quarantine)
  }

  ghost predicate TxnsMatchLock(s: State) {
    && s.txns.Keys == s.lock.phase.Keys
    && forall o :: L.Running(s.lock, o) && Active(s.txns[o].stage) ==> s.lock.phase[o] == L.Holding
  }

  ghost predicate HistoryOk(f: Format, first: Option<Bytes>, s: State) {
    && s.main == Current(first, s.log)
    && LegalHistory(f, first, s.log)
    && FreshVersions(first, s.log, s.used)
    && (forall k :: 0 <= k < |s.log| && s.log[k].cause == By(Reset) ==>
          Version(first, s.log, k).Some? && Version(first, s.log, k).value in s.quarantine)
  }

  ghost predicate TxnsOk(f: Format, first: Option<Bytes>, s: State) {
    && (forall o :: o in s.txns ==> s.txns[o].began <= |s.log|)
    && (forall o :: o in s.txns && L.Running(s.lock, o) ==> ViewOk(f, first, s, s.txns[o]))
    && (forall o :: o in s.txns && s.txns[o].stage.Done? ==> ResultOk(f, first, s.log, o, s.txns[o]))
  }

  ghost predicate Inv(f: Format, first: Option<Bytes>, s: State) {
    && L.Inv(s.lock)
    && TxnsMatchLock(s)
    && HistoryOk(f, first, s)
    && TxnsOk(f, first, s)
  }

  // The lock turns into exclusion of transactions.
  lemma OnlyOneActive(s: State, o: L.Owner)
    requires L.Inv(s.lock) && TxnsMatchLock(s) && InTransaction(s, o)
    ensures forall p :: L.Running(s.lock, p) && Active(s.txns[p].stage) ==> p == o
  {
    forall p | L.Running(s.lock, p) && Active(s.txns[p].stage)
      ensures p == o
    {
      assert L.Owns(s.lock, o) && L.Owns(s.lock, p);
      assert L.LockIs(s.lock, o) && L.LockIs(s.lock, p);
      assert o in s.lock.dirs[L.Lock];
    }
  }

  lemma ResultOkGrows(f: Format, first: Option<Bytes>, log: seq<Install>, i: Install, o: L.Owner, x: Txn)
    requires x.stage.Done? && ResultOk(f, first, log, o, x)
    ensures ResultOk(f, first, log + [i], o, x)
  {
    assert (log + [i])[..x.stage.at] == log[..x.stage.at];
  }

  // The main file and its history stay; revisions and quarantine only grow.
  ghost predicate FilesGrow(s: State, t: State) {
    && t.main == s.main && t.log == s.log
    && s.used <= t.used && s.quarantine <= t.quarantine
  }

  lemma ViewSurvives(f: Format, first: Option<Bytes>, s: State, t: State, x: Txn)
    requires ViewOk(f, first, s, x) && FilesGrow(s, t)
    requires Active(x.stage) ==> t.temps == s.temps
    ensures ViewOk(f, first, t, x)
  {
  }

  lemma LockEventKeepsMatch(f: Format, s: State, e: Event, t: State)
    requires TxnsMatchLock(s) && Next(f, s, e, t) && (e.LockStep? || e.Begin?)
    ensures TxnsMatchLock(t)
  {
    L.StepMovesOne(s.lock, if e.LockStep? then e.e else L.Start(e.o), t.lock);
    hide L.Next;
  }

  lemma LockEventKeepsTxns(f: Format, first: Option<Bytes>, s: State, e: Event, t: State)
    requires TxnsOk(f, first, s) && Next(f, s, e, t) && (e.LockStep? || e.Begin?)
    requires TxnsMatchLock(s)
    ensures TxnsOk(f, first, t)
  {
    L.StepMovesOne(s.lock, if e.LockStep? then e.e else L.Start(e.o), t.lock);
    hide L.Next;
    forall o | o in t.txns && L.Running(t.lock, o)
      ensures ViewOk(f, first, t, t.txns[o])
    {
      if o in s.txns && t.txns[o] == s.txns[o] {
        hide ViewOk;
        assert L.Running(s.lock, o);
        ViewSurvives(f, first, s, t, s.txns[o]);
      }
    }
    hide ViewOk;
    hide ResultOk;
  }

  lemma LockEventKeepsInv(f: Format, first: Option<Bytes>, s: State, e: Event, t: State)
    requires Inv(f, first, s) && Next(f, s, e, t) && (e.LockStep? || e.Begin?)
    ensures Inv(f, first, t)
  {
    LockEventKeepsTxns(f, first, s, e, t);
    LockEventKeepsMatch(f, s, e, t);
    hide TxnsMatchLock;
    hide TxnsOk;
    L.NextKeepsInv(s.lock, if e.LockStep? then e.e else L.Start(e.o), t.lock);
    hide L.Next;
    hide L.Inv;
  }

  // One transaction moves on, the main file and the history staying as they are.
  ghost predicate Moves(s: State, o: L.Owner, t: State) {
    && InTransaction(s, o) && t.lock == s.lock
    && FilesGrow(s, t)
    && o in t.txns && t.txns == s.txns[o := s.txns[o].(stage := t.txns[o].stage)]
  }

  lemma HistorySurvives(f: Format, first: Option<Bytes>, s: State, t: State)
    requires HistoryOk(f, first, s) && FilesGrow(s, t)
    ensures HistoryOk(f, first, t)
  {
  }

  lemma MoveKeepsTxns(f: Format, first: Option<Bytes>, s: State, o: L.Owner, t: State)
    requires TxnsOk(f, first, s) && Moves(s, o, t)
    requires forall p :: L.Running(s.lock, p) && p in s.txns && Active(s.txns[p].stage) ==> p == o
    requires ViewOk(f, first, t, t.txns[o])
    requires t.txns[o].stage.Done? ==> ResultOk(f, first, t.log, o, t.txns[o])
    ensures TxnsOk(f, first, t)
  {
    hide ViewOk;
    hide ResultOk;
    forall p | p in t.txns && L.Running(t.lock, p)
      ensures ViewOk(f, first, t, t.txns[p])
    {
      if p != o {
        ViewSurvives(f, first, s, t, s.txns[p]);
      }
    }
  }

  lemma MoveKeepsInv(f: Format, first: Option<Bytes>, s: State, o: L.Owner, t: State)
    requires Inv(f, first, s) && Moves(s, o, t)
    requires ViewOk(f, first, t, t.txns[o])
    requires t.txns[o].stage.Done? ==> ResultOk(f, first, t.log, o, t.txns[o])
    ensures Inv(f, first, t)
  {
    OnlyOneActive(s, o);
    MoveKeepsTxns(f, first, s, o, t);
    HistorySurvives(f, first, s, t);
    hide L.Inv;
    hide HistoryOk;
    hide TxnsOk;
    hide ViewOk;
    hide ResultOk;
    hide FilesGrow;
  }

  lemma ReadKeepsInv(f: Format, first: Option<Bytes>, s: State, e: Event, t: State)
    requires Inv(f, first, s) && Next(f, s, e, t) && e.Read?
    ensures Inv(f, first, t)
  {
    hide L.Inv;
    assert ViewOk(f, first, t, t.txns[e.o]) && Moves(s, e.o, t);
    hide *;
    MoveKeepsInv(f, first, s, e.o, t);
  }

  lemma StageTempKeepsInv(f: Format, first: Option<Bytes>, s: State, e: Event, t: State)
    requires Inv(f, first, s) && Next(f, s, e, t) && e.StageTemp?
    ensures Inv(f, first, t)
  {
    assert ViewOk(f, first, s, s.txns[e.o]);
    StageTempView(f, first, s, e, t);
    hide *;
    MoveKeepsInv(f, first, s, e.o, t);
  }

  lemma StageTempView(f: Format, first: Option<Bytes>, s: State, e: Event, t: State)
    requires Next(f, s, e, t) && e.StageTemp? && ViewOk(f, first, s, s.txns[e.o])
    ensures Moves(s, e.o, t) && ViewOk(f, first, t, t.txns[e.o]) && !t.txns[e.o].stage.Done?
  {
  }

  lemma OperateView(f: Format, first: Option<Bytes>, s: State, e: Event, t: State)
    requires Next(f, s, e, t) && e.Operate? && s.main == Some(s.txns[e.o].stage.base)
    requires HistoryOk(f, first, s) && s.txns[e.o].began <= |s.log|
    ensures Moves(s, e.o, t) && ViewOk(f, first, t, t.txns[e.o])
    ensures t.txns[e.o].stage.Done? ==> ResultOk(f, first, t.log, e.o, t.txns[e.o])
  {
    hide LegalHistory;
    assert s.log[..|s.log|] == s.log;
  }

  lemma OperateKeepsInv(f: Format, first: Option<Bytes>, s: State, e: Event, t: State)
    requires Inv(f, first, s) && Next(f, s, e, t) && e.Operate?
    ensures Inv(f, first, t)
  {
    assert ViewOk(f, first, s, s.txns[e.o]);
    OperateView(f, first, s, e, t);
    hide *;
    MoveKeepsInv(f, first, s, e.o, t);
  }

  lemma FailKeepsInv(f: Format, first: Option<Bytes>, s: State, e: Event, t: State)
    requires Inv(f, first, s) && Next(f, s, e, t) && e.Fail?
    ensures Inv(f, first, t)
  {
    assert Moves(s, e.o, t) && ViewOk(f, first, t, t.txns[e.o]) && ResultOk(f, first, t.log, e.o, t.txns[e.o]);
    hide *;
    MoveKeepsInv(f, first, s, e.o, t);
  }

  // Publishing appends one legal version to the history.
  ghost predicate Installs(s: State, o: L.Owner, cause: Cause, t: State) {
    && InTransaction(s, o) && t.lock == s.lock
    && t.main.Some? && t.log == s.log + [Install(o, cause, t.main.value)]
    && t.used == s.used && t.quarantine == s.quarantine
    && o in t.txns && t.txns == s.txns[o := s.txns[o].(stage := t.txns[o].stage)]
  }

  lemma HistoryExtends(f: Format, first: Option<Bytes>, s: State, o: L.Owner, cause: Cause, t: State)
    requires HistoryOk(f, first, s) && Installs(s, o, cause, t)
    requires Legal(f, s.main, cause, t.main.value)
    requires Unpublished(first, s.log, s.used, t.main.value)
    requires cause == By(Reset) ==> s.main.value in s.quarantine
    ensures HistoryOk(f, first, t)
  {
    FreshExtends(first, s.log, t.log, s.used, t.main.value);
    var log := s.log;
    assert log[..|log|] == log;
    hide Legal;
    hide FreshVersions;
    hide Unpublished;
    forall k | 0 <= k < |t.log|
      ensures Legal(f, Current(first, t.log[..k]), t.log[k].cause, t.log[k].next)
      ensures t.log[k].cause == By(Reset) ==>
        Version(first, t.log, k).Some? && Version(first, t.log, k).value in t.quarantine
    {
      assert t.log[..k] == log[..k];
      if k < |log| {
        assert Legal(f, Current(first, log[..k]), log[k].cause, log[k].next);
      } else if cause == By(Reset) {
        ResetFindsAFile(f, s.main, t.main.value);
      }
    }
  }

  lemma FreshExtends(first: Option<Bytes>, log: seq<Install>, log': seq<Install>, used: set<nat>, b: Bytes)
    requires FreshVersions(first, log, used) && Unpublished(first, log, used, b)
    requires |log'| == |log| + 1 && log'[..|log|] == log && log'[|log|].next == b
    ensures FreshVersions(first, log', used)
  {
    assert forall k :: 0 <= k < |log| ==> log'[k] == log[k];
    hide Carries;
  }

  lemma ResetFindsAFile(f: Format, before: Option<Bytes>, next: Bytes)
    requires Legal(f, before, By(Reset), next)
    ensures before.Some?
  {
  }

  lemma InstallKeepsTxns(f: Format, first: Option<Bytes>, s: State, o: L.Owner, cause: Cause, t: State)
    requires TxnsOk(f, first, s) && Installs(s, o, cause, t)
    requires forall p :: L.Running(s.lock, p) && p in s.txns && Active(s.txns[p].stage) ==> p == o
    requires ViewOk(f, first, t, t.txns[o])
    requires t.txns[o].stage.Done? ==> ResultOk(f, first, t.log, o, t.txns[o])
    ensures TxnsOk(f, first, t)
  {
    forall p | p in t.txns && t.txns[p].stage.Done?
      ensures ResultOk(f, first, t.log, p, t.txns[p])
    {
      hide ResultOk;
      if p != o {
        ResultOkGrows(f, first, s.log, t.log[|s.log|], p, s.txns[p]);
      }
    }
    hide ResultOk;
  }

  lemma InstallKeepsInv(f: Format, first: Option<Bytes>, s: State, o: L.Owner, cause: Cause, t: State)
    requires Inv(f, first, s) && Installs(s, o, cause, t)
    requires Legal(f, s.main, cause, t.main.value)
    requires Unpublished(first, s.log, s.used, t.main.value)
    requires cause == By(Reset) ==> s.main.value in s.quarantine
    requires ViewOk(f, first, t, t.txns[o])
    requires t.txns[o].stage.Done? ==> ResultOk(f, first, t.log, o, t.txns[o])
    ensures Inv(f, first, t)
  {
    OnlyOneActive(s, o);
    HistoryExtends(f, first, s, o, cause, t);
    InstallKeepsTxns(f, first, s, o, cause, t);
    hide L.Inv;
    hide HistoryOk;
    hide TxnsOk;
    hide ViewOk;
    hide ResultOk;
    hide Legal;
    hide Unpublished;
  }

  lemma CommitView(f: Format, first: Option<Bytes>, s: State, e: Event, t: State)
    requires Next(f, s, e, t) && e.Commit? && ViewOk(f, first, s, s.txns[e.o])
    requires s.txns[e.o].began <= |s.log| && HistoryOk(f, first, s)
    ensures ViewOk(f, first, t, t.txns[e.o])
    ensures s.txns[e.o].stage.QuarantineTemp? ==> Moves(s, e.o, t) && !t.txns[e.o].stage.Done?
    ensures !s.txns[e.o].stage.QuarantineTemp? ==>
      var cause := if s.txns[e.o].stage.ImportTemp? then Import(s.txns[e.o].stage.legacy) else By(s.txns[e.o].op);
      && Installs(s, e.o, cause, t)
      && Legal(f, s.main, cause, t.main.value)
      && Unpublished(first, s.log, s.used, t.main.value)
      && (cause == By(Reset) ==> s.main.value in s.quarantine)
      && (t.txns[e.o].stage.Done? ==> ResultOk(f, first, t.log, e.o, t.txns[e.o]))
  {
    hide LegalHistory;
  }

  lemma CommitKeepsInv(f: Format, first: Option<Bytes>, s: State, e: Event, t: State)
    requires Inv(f, first, s) && Next(f, s, e, t) && e.Commit?
    ensures Inv(f, first, t)
  {
    CommitView(f, first, s, e, t);
    var st := s.txns[e.o].stage;
    hide *;
    if st.QuarantineTemp? {
      MoveKeepsInv(f, first, s, e.o, t);
    } else {
      InstallKeepsInv(f, first, s, e.o, if st.ImportTemp? then Import(st.legacy) else By(s.txns[e.o].op), t);
    }
  }

  lemma NextKeepsInv(f: Format, first: Option<Bytes>, s: State, e: Event, t: State)
    requires Inv(f, first, s) && Next(f, s, e, t)
    ensures Inv(f, first, t)
  {
    hide *;
    match e
    case LockStep(_) => LockEventKeepsInv(f, first, s, e, t);
    case Begin(_, _) => LockEventKeepsInv(f, first, s, e, t);
    case Read(_, _, _) => ReadKeepsInv(f, first, s, e, t);
    case StageTemp(_, _) => StageTempKeepsInv(f, first, s, e, t);
    case Operate(_, _) => OperateKeepsInv(f, first, s, e, t);
    case Commit(_, _, _) => CommitKeepsInv(f, first, s, e, t);
    case Fail(_) => FailKeepsInv(f, first, s, e, t);
  }

  // ----- Every run ------------------------------------------------------------

  lemma InitHolds(f: Format, s: State)
    requires Init(s)
    ensures Inv(f, s.main, s)
  {
    L.InitHolds(s.lock);
  }

  lemma {:induction false} RunKeepsInv(f: Format, states: seq<State>, events: seq<Event>, i: nat)
    requires Run(f, states, events) && i < |states|
    ensures Inv(f, states[0].main, states[i])
  {
    if i == 0 {
      InitHolds(f, states[0]);
    } else {
      RunKeepsInv(f, states, events, i - 1);
      var s, e, t := states[i - 1], events[i - 1], states[i];
      assert Next(f, s, e, t);
      hide *;
      NextKeepsInv(f, states[0].main, s, e, t);
    }
  }

  // The installed versions form a legal serial history of the archive whose last
  // version is what the main path holds, and every answer given so far is the
  // answer of that history at one point inside its transaction.
  lemma Linearizable(f: Format, states: seq<State>, events: seq<Event>, i: nat)
    requires Run(f, states, events) && i < |states|
    ensures var first, s := states[0].main, states[i];
      && s.main == Current(first, s.log)
      && LegalHistory(f, first, s.log)
      && (forall o :: o in s.txns && s.txns[o].stage.Done? ==> ResultOk(f, first, s.log, o, s.txns[o]))
  {
    RunKeepsInv(f, states, events, i);
  }

  // Along a run the history only grows, answers stay, and a transaction that
  // begins later begins with at least the versions installed before it.
  ghost predicate Later(s: State, t: State) {
    && s.log <= t.log
    && s.quarantine <= t.quarantine
    && (forall o :: o in s.txns && s.txns[o].stage.Done? ==> o in t.txns && t.txns[o] == s.txns[o])
    && s.txns.Keys <= t.txns.Keys
    && (forall o :: o in t.txns && o !in s.txns ==> |s.log| <= t.txns[o].began)
    && (forall o :: o in s.txns && o in t.txns ==> t.txns[o].began == s.txns[o].began)
  }

  lemma LockStepIsLater(f: Format, s: State, e: Event, t: State)
    requires s.txns.Keys == s.lock.phase.Keys && Next(f, s, e, t) && (e.LockStep? || e.Begin?)
    ensures Later(s, t)
  {
    if e.Begin? {
      assert e.o !in s.lock.phase;
    }
    hide L.Next;
  }

  lemma OperateIsLater(f: Format, s: State, e: Event, t: State)
    requires Next(f, s, e, t) && e.Operate?
    ensures Later(s, t)
  {
    hide L.Next;
  }

  lemma CommitIsLater(f: Format, s: State, e: Event, t: State)
    requires Next(f, s, e, t) && e.Commit?
    ensures Later(s, t)
  {
    hide L.Next;
    assert s.log <= t.log && s.quarantine <= t.quarantine;
  }

  lemma StepIsLater(f: Format, s: State, e: Event, t: State)
    requires s.txns.Keys == s.lock.phase.Keys && Next(f, s, e, t)
    ensures Later(s, t)
  {
    hide L.Next, Decide, Publish;
    if e.LockStep? || e.Begin? {
      LockStepIsLater(f, s, e, t);
    } else if e.Operate? {
      OperateIsLater(f, s, e, t);
    } else if e.Commit? {
      CommitIsLater(f, s, e, t);
    }
  }

  lemma StepOfRunIsLater(f: Format, states: seq<State>, events: seq<Event>, i: nat)
    requires Run(f, states, events) && i < |events|
    ensures Later(states[i], states[i + 1])
  {
    RunKeepsInv(f, states, events, i);
    var s, e, t := states[i], events[i], states[i + 1];
    assert Next(f, s, e, t) && TxnsMatchLock(s);
    assert s.txns.Keys == s.lock.phase.Keys;
    hide *;
    StepIsLater(f, s, e, t);
  }

  lemma {:induction false} RunIsLater(f: Format, states: seq<State>, events: seq<Event>, i: nat, j: nat)
    requires Run(f, states, events) && i <= j < |states|
    ensures Later(states[i], states[j])
    decreases j
  {
    hide Next;
    if i < j {
      hide Later;
      RunIsLater(f, states, events, i, j - 1);
      StepOfRunIsLater(f, states, events, j - 1);
      LaterTrans(states[i], states[j - 1], states[j]);
    }
  }

  lemma LaterTrans(r: State, s: State, t: State)
    requires Later(r, s) && Later(s, t)
    ensures Later(r, t)
  {
  }

  // A transaction that begins after another has answered takes effect after it.
  lemma RealTimeOrder(f: Format, states: seq<State>, events: seq<Event>, i: nat, j: nat, a: L.Owner, b: L.Owner)
    requires Run(f, states, events) && i <= j < |states|
    requires a in states[i].txns && states[i].txns[a].stage.Done? && b !in states[i].txns
    requires b in states[j].txns && states[j].txns[b].stage.Done?
    ensures a in states[j].txns && states[j].txns[a] == states[i].txns[a]
    ensures states[i].txns[a].stage.at <= states[j].txns[b].stage.at
  {
    RunIsLater(f, states, events, i, j);
    RunKeepsInv(f, states, events, i);
    RunKeepsInv(f, states, events, j);
    hide L.Inv;
    hide HistoryOk;
    hide ViewOk;
    assert ResultOk(f, states[0].main, states[i].log, a, states[i].txns[a]);
    assert ResultOk(f, states[0].main, states[j].log, b, states[j].txns[b]);
  }

  // No two versions of the archive are ever the same bytes, so no revision token
  // other than the one for "nothing stored" ever names two of them.
  lemma RevisionNeverRecurs(f: Format, states: seq<State>, events: seq<Event>, i: nat, j: nat, k: nat)
    requires Run(f, states, events) && i < |states|
    requires j < k <= |states[i].log|
    ensures Version(states[0].main, states[i].log, j) != Version(states[0].main, states[i].log, k)
  {
    RunKeepsInv(f, states, events, i);
    var log := states[i].log;
    assert log[..k][k - 1] == log[k - 1];
    if j > 0 {
      assert log[..j][j - 1] == log[j - 1];
    }
  }

  // Lost updates are impossible: a save that succeeds with the revision some load
  // answered installs the version directly after the one that load returned.
  lemma SaveReplacesWhatWasLoaded(f: Format, states: seq<State>, events: seq<Event>, i: nat, o: L.Owner, k: nat)
    requires Run(f, states, events) && i < |states|
    requires o in states[i].txns && states[i].txns[o].stage.Done? && states[i].txns[o].stage.result.Archive?
    requires k < |states[i].log|
    requires var cause := states[i].log[k].cause;
      cause.By? && cause.op.Save? && cause.op.base == states[i].txns[o].stage.result.revision
    ensures k == states[i].txns[o].stage.at
  {
    var first, s := states[0].main, states[i];
    var at := s.txns[o].stage.at;
    Linearizable(f, states, events, i);
    assert ResultOk(f, first, s.log, o, s.txns[o]);
    assert Legal(f, Version(first, s.log, k), s.log[k].cause, s.log[k].next);
    if k < at {
      RevisionNeverRecurs(f, states, events, i, k, at);
    } else if at < k {
      RevisionNeverRecurs(f, states, events, i, at, k);
    }
  }

  // The legacy value is read at most once, into an archive that had no file.
  lemma LegacyImportedOnce(f: Format, states: seq<State>, events: seq<Event>, i: nat, k: nat)
    requires Run(f, states, events) && i < |states|
    requires k < |states[i].log| && states[i].log[k].cause.Import?
    ensures k == 0 && states[0].main == None
    ensures RawOf(states[i].log[0].next) == states[i].log[0].cause.legacy
  {
    Linearizable(f, states, events, i);
    assert Legal(f, Version(states[0].main, states[i].log, k), states[i].log[k].cause, states[i].log[k].next);
  }

  // Bytes nobody could read are never destroyed. In every reachable state, hence
  // at every crash point of a recovery, each unreadable version that was ever at
  // the main path is still there, or is in quarantine, or was overwritten by a
  // save whose caller named that very version.
  lemma UnreadableBytesSurvive(f: Format, states: seq<State>, events: seq<Event>, i: nat, n: nat)
    requires Run(f, states, events) && i < |states| && n <= |states[i].log|
    requires var v := Version(states[0].main, states[i].log, n); v.Some? && Unreadable(f, v.value)
    ensures var s := states[i];
      var v := Version(states[0].main, s.log, n);
      || s.main == v
      || v.value in s.quarantine
      || (n < |s.log| && s.log[n].cause.By? && s.log[n].cause.op.Save? && s.log[n].cause.op.base == Digest(v.value))
  {
    RunKeepsInv(f, states, events, i);
    var first, s := states[0].main, states[i];
    if n < |s.log| {
      assert Legal(f, Version(first, s.log, n), s.log[n].cause, s.log[n].next);
    } else {
      assert s.log[..n] == s.log;
    }
  }

  // ----- What each transaction answers ------------------------------------------------

  // Nothing is stored: a tombstone, an envelope around nothing.
  predicate IsTombstone(b: Bytes) {
    b.Envelope? && b.raw == None
  }

  // A transaction that goes on from `base` to put `next` at the main path.
  predicate GoesToWrite(s: State, o: L.Owner, base: Bytes, next: Bytes) {
    o in s.txns && s.txns[o].stage == Writing(base, next)
  }

  predicate Answered(s: State, o: L.Owner, r: Result) {
    o in s.txns && s.txns[o].stage.Done? && s.txns[o].stage.result == r
  }

  // The step in which an operation decides, with the bytes it read at the main path.
  ghost predicate Decides(states: seq<State>, events: seq<Event>, i: nat, o: L.Owner, op: Op, base: Bytes, uuid: nat) {
    && i < |events| && i + 1 < |states| && events[i] == Operate(o, uuid)
    && o in states[i].txns && states[i].txns[o].op == op && states[i].txns[o].stage == Loaded(base)
  }

  // A load answers what is stored and its version's own digest, and nothing where there is
  // only a tombstone.
  lemma LoadAnswers(f: Format, states: seq<State>, events: seq<Event>, i: nat, o: L.Owner, base: Bytes, uuid: nat)
    requires Run(f, states, events) && Decides(states, events, i, o, Load, base, uuid)
    ensures states[i].main == Some(base)
    ensures match base
            case Envelope(_, None) => Answered(states[i + 1], o, Nothing)
            case Envelope(_, Some(raw)) => Answered(states[i + 1], o, Archive(raw, Digest(base)))
            case Plain(text) => Answered(states[i + 1], o, Archive(text, Digest(base)))
  {
    RunKeepsInv(f, states, events, i);
    assert Next(f, states[i], events[i], states[i + 1]);
    hide L.Inv, HistoryOk, TxnsMatchLock;
  }

  // A save conflicts exactly when neither nothing is stored and none was what it expected,
  // nor something is and it named that very version; otherwise it goes on to write its text.
  lemma SaveConflicts(f: Format, states: seq<State>, events: seq<Event>, i: nat, o: L.Owner,
                      json: string, wanted: Revision, base: Bytes, uuid: nat)
    requires Run(f, states, events) && Decides(states, events, i, o, Save(json, wanted), base, uuid)
    ensures states[i].main == Some(base)
    ensures var meets := if IsTombstone(base) then wanted == NoRevision else wanted == Digest(base);
      && (Answered(states[i + 1], o, Conflict) <==> !meets)
      && (GoesToWrite(states[i + 1], o, base, Envelope(uuid, Some(json))) <==> meets)
  {
    RunKeepsInv(f, states, events, i);
    assert Next(f, states[i], events[i], states[i + 1]);
    hide L.Inv, HistoryOk, TxnsMatchLock;
  }

  // A reset touches only text that does not read as an archive; a mutation only what does,
  // or nothing.
  lemma ResetAndMutateDecide(f: Format, states: seq<State>, events: seq<Event>, i: nat, o: L.Owner, op: Op, base: Bytes, uuid: nat)
    requires Run(f, states, events) && Decides(states, events, i, o, op, base, uuid) && (op.Reset? || op.Mutate?)
    ensures states[i].main == Some(base)
    ensures var raw := if base.Envelope? then base.raw else Some(base.text);
      var legible := raw.None? || f.readable(raw.value);
      if op.Reset? then
        if legible then Answered(states[i + 1], o, AlreadyReadable)
        else o in states[i + 1].txns && states[i + 1].txns[o].stage == Quarantining(base)
      else
        if legible then GoesToWrite(states[i + 1], o, base, Envelope(uuid, Some(f.mutate(op.mutation, raw))))
        else Answered(states[i + 1], o, Refused)
  {
    RunKeepsInv(f, states, events, i);
    assert Next(f, states[i], events[i], states[i + 1]);
    hide L.Inv, HistoryOk, TxnsMatchLock;
  }

  // What a transaction reads: the main path's bytes as they are, or, with no file, the
  // legacy value in a new envelope, which becomes the file before anything else is done.
  lemma ReadFinds(f: Format, states: seq<State>, events: seq<Event>, i: nat, o: L.Owner, legacy: Option<string>, uuid: nat)
    requires Run(f, states, events) && i < |events| && events[i] == Read(o, legacy, uuid)
    ensures o in states[i + 1].txns
    ensures states[i + 1].txns[o].stage ==
      match states[i].main
      case Some(bytes) => Loaded(bytes)
      case None => Importing(legacy, Envelope(uuid, legacy))
  {
    assert Next(f, states[i], events[i], states[i + 1]);
  }

  // Publishing an import or a write makes those very bytes the file and a new version;
  // publishing into quarantine keeps the bytes there, and leaves a tombstone to write.
  lemma CommitInstalls(f: Format, states: seq<State>, events: seq<Event>, i: nat, o: L.Owner, uuid: nat, cleaned: bool)
    requires Run(f, states, events) && i < |events| && events[i] == Commit(o, uuid, cleaned)
    ensures o in states[i].txns && o in states[i + 1].txns
    ensures match states[i].txns[o].stage
            case ImportTemp(legacy, next, _) =>
              && states[i + 1].main == Some(next) && states[i + 1].txns[o].stage == Loaded(next)
              && states[i + 1].log == states[i].log + [Install(o, Import(legacy), next)]
            case WriteTemp(_, next, _) =>
              && states[i + 1].main == Some(next) && Answered(states[i + 1], o, if cleaned then Ok else Failed)
              && states[i + 1].log == states[i].log + [Install(o, By(states[i].txns[o].op), next)]
            case QuarantineTemp(base, _) =>
              && states[i + 1].main == states[i].main == Some(base) && states[i + 1].log == states[i].log
              && states[i + 1].quarantine == states[i].quarantine + {base}
              && GoesToWrite(states[i + 1], o, base, Envelope(uuid, None))
            case _ => false
  {
    RunKeepsInv(f, states, events, i);
    assert Next(f, states[i], events[i], states[i + 1]);
    assert ViewOk(f, states[0].main, states[i], states[i].txns[o]);
    hide L.Inv, HistoryOk, TxnsMatchLock, TxnsOk;
  }

  lemma StepsFromMatch(f: Format, states: seq<State>, events: seq<Event>, i: nat)
    requires Run(f, states, events) && i < |events|
    ensures Next(f, states[i], events[i], states[i + 1]) && states[i].txns.Keys == states[i].lock.phase.Keys
  {
    hide Next, HistoryOk, TxnsOk, L.Inv;
    RunKeepsInv(f, states, events, i);
  }

  // A transaction on its way to write goes on with the same bytes until it commits or fails.
  lemma {:induction false} WritesWhatItMeant(f: Format, states: seq<State>, events: seq<Event>, i: nat, j: nat,
      o: L.Owner, base: Bytes, next: Bytes)
    requires Run(f, states, events) && i <= j < |states| && GoesToWrite(states[i], o, base, next)
    ensures o in states[j].txns
    ensures var st := states[j].txns[o].stage;
      st.Done? || st == Writing(base, next) || (st.WriteTemp? && st.base == base && st.next == next)
    decreases j
  {
    hide Next, Inv, Init;
    if i < j {
      WritesWhatItMeant(f, states, events, i, j - 1, o, base, next);
      StepsFromMatch(f, states, events, j - 1);
      WriteStep(f, states[j - 1], events[j - 1], states[j], o, base, next);
    }
  }

  lemma WriteStep(f: Format, s: State, e: Event, t: State, o: L.Owner, base: Bytes, next: Bytes)
    requires Next(f, s, e, t) && s.txns.Keys == s.lock.phase.Keys && o in s.txns
    requires var st := s.txns[o].stage;
      st.Done? || st == Writing(base, next) || (st.WriteTemp? && st.base == base && st.next == next)
    ensures o in t.txns
    ensures var st := t.txns[o].stage;
      st.Done? || st == Writing(base, next) || (st.WriteTemp? && st.base == base && st.next == next)
  {
    if e.Begin? { assert e.o !in s.lock.phase; }
    hide L.Next;
  }

  // The first save of an archive: where a load answered that nothing is stored and no version
  // has come since, a save that expects nothing goes on to write; and committed, it is the
  // very next version.
  lemma FirstSave(f: Format, states: seq<State>, events: seq<Event>, i: nat, a: L.Owner,
                  k: nat, o: L.Owner, json: string, base: Bytes, uuid: nat, j: nat, uuid': nat)
    requires Run(f, states, events) && i < |states| && Answered(states[i], a, Nothing)
    requires Decides(states, events, k, o, Save(json, NoRevision), base, uuid) && i <= k
    requires |states[k].log| == states[i].txns[a].stage.at
    requires k < j < |events| && events[j] == Commit(o, uuid', true)
    ensures GoesToWrite(states[k + 1], o, base, Envelope(uuid, Some(json)))
    ensures Answered(states[j + 1], o, Ok) && states[j + 1].main == Some(Envelope(uuid, Some(json)))
    ensures |states[j].log| == |states[k].log|
    ensures states[j + 1].log == states[k].log + [Install(o, By(Save(json, NoRevision)), Envelope(uuid, Some(json)))]
  {
    hide Next, Init, L.Inv, TxnsMatchLock, HistoryOk, ViewOk;
    var next := Envelope(uuid, Some(json));
    SaveConflicts(f, states, events, k, o, json, NoRevision, base, uuid);
    SaysNothingIsStored(f, states, events, i, a, k, base);
    WritesWhatItMeant(f, states, events, k + 1, j, o, base, next);
    CommitInstalls(f, states, events, j, o, uuid', true);
    OpStays(f, states, events, k, j, o);
    StillOver(f, states, events, j, o);
    SameVersionSameLength(f, states, events, k, j, base);
  }

  // A load that found nothing, at the version still there.
  lemma SaysNothingIsStored(f: Format, states: seq<State>, events: seq<Event>, i: nat, a: L.Owner, k: nat, base: Bytes)
    requires Run(f, states, events) && i <= k < |states| && Answered(states[i], a, Nothing)
    requires states[k].main == Some(base) && |states[k].log| == states[i].txns[a].stage.at
    ensures IsTombstone(base)
  {
    hide Next, Init, L.Inv, TxnsMatchLock, ViewOk, LegalHistory, FreshVersions;
    RunKeepsInv(f, states, events, i);
    RunKeepsInv(f, states, events, k);
    RunIsLater(f, states, events, i, k);
    assert ResultOk(f, states[0].main, states[i].log, a, states[i].txns[a]);
    assert states[i].log == states[k].log && states[i].log[..|states[i].log|] == states[i].log;
  }

  // A transaction that is about to publish its text still has its version at the main path.
  lemma StillOver(f: Format, states: seq<State>, events: seq<Event>, j: nat, o: L.Owner)
    requires Run(f, states, events) && j < |events| && events[j].Commit? && events[j].o == o
    ensures o in states[j].txns
    ensures states[j].txns[o].stage.WriteTemp? ==> states[j].main == Some(states[j].txns[o].stage.base)
  {
    hide L.Inv, HistoryOk;
    RunKeepsInv(f, states, events, j);
    assert Next(f, states[j], events[j], states[j + 1]);
    assert ViewOk(f, states[0].main, states[j], states[j].txns[o]);
  }

  lemma {:induction false} OpStays(f: Format, states: seq<State>, events: seq<Event>, i: nat, j: nat, o: L.Owner)
    requires Run(f, states, events) && i <= j < |states| && o in states[i].txns
    ensures o in states[j].txns && states[j].txns[o].op == states[i].txns[o].op
    decreases j
  {
    hide Next, Inv, Init;
    if i < j {
      OpStays(f, states, events, i, j - 1, o);
      StepsFromMatch(f, states, events, j - 1);
      OpStep(f, states[j - 1], events[j - 1], states[j], o);
    }
  }

  lemma OpStep(f: Format, s: State, e: Event, t: State, o: L.Owner)
    requires Next(f, s, e, t) && s.txns.Keys == s.lock.phase.Keys && o in s.txns
    ensures o in t.txns && t.txns[o].op == s.txns[o].op
  {
    if e.Begin? { assert e.o !in s.lock.phase; }
    hide L.Next;
  }

  // While one version stays at the main path, none is installed.
  lemma SameVersionSameLength(f: Format, states: seq<State>, events: seq<Event>, k: nat, j: nat, base: Bytes)
    requires Run(f, states, events) && k <= j < |states|
    requires states[k].main == Some(base) == states[j].main
    ensures states[j].log == states[k].log
  {
    RunKeepsInv(f, states, events, k);
    RunKeepsInv(f, states, events, j);
    RunIsLater(f, states, events, k, j);
    var n, m := |states[k].log|, |states[j].log|;
    assert states[k].log[..n] == states[k].log && states[j].log[..m] == states[j].log;
    assert states[j].log[..n] == states[k].log;
  }

  // Nothing stands in the way of a transaction that holds the lock: with no file it can make
  // one of the legacy value and go on from that.
  lemma ImportCanRun(f: Format, s: State, o: L.Owner, legacy: Option<string>, uuid: nat, uuid': nat, temp: nat)
      returns (read: State, staged: State, loaded: State)
    requires InTransaction(s, o) && s.txns[o].stage.Waiting? && s.main.None?
    requires uuid !in s.used && uuid' !in s.used && uuid != uuid' && temp !in s.temps
    ensures Next(f, s, Read(o, legacy, uuid), read)
    ensures Next(f, read, StageTemp(o, temp), staged)
    ensures Next(f, staged, Commit(o, uuid', true), loaded)
    ensures InTransaction(loaded, o) && loaded.txns[o].stage == Loaded(Envelope(uuid, legacy))
    ensures loaded.main == Some(Envelope(uuid, legacy))
  {
    var next := Envelope(uuid, legacy);
    read := To(s, o, Importing(legacy, next)).(used := s.used + {uuid});
    staged := To(read, o, ImportTemp(legacy, next, temp)).(temps := s.temps[temp := next]);
    loaded := Publish(staged, o, uuid', true);
  }

  // A transaction that means to write can.
  lemma WriteCanRun(f: Format, s: State, o: L.Owner, base: Bytes, next: Bytes, uuid: nat, temp: nat)
      returns (staged: State, written: State)
    requires InTransaction(s, o) && GoesToWrite(s, o, base, next)
    requires uuid !in s.used && temp !in s.temps
    ensures Next(f, s, StageTemp(o, temp), staged)
    ensures Next(f, staged, Commit(o, uuid, true), written)
    ensures Answered(written, o, Ok) && written.main == Some(next)
  {
    staged := To(s, o, WriteTemp(base, next, temp)).(temps := s.temps[temp := next]);
    written := Publish(staged, o, uuid, true);
  }

  // A save that meets the version there is can write it over.
  lemma SaveCanRun(f: Format, s: State, o: L.Owner, json: string, wanted: Revision, base: Bytes, uuid: nat, uuid': nat, temp: nat)
      returns (decided: State, staged: State, saved: State)
    requires InTransaction(s, o) && s.txns[o].stage == Loaded(base) && s.txns[o].op == Save(json, wanted)
    requires wanted == if IsTombstone(base) then NoRevision else Digest(base)
    requires uuid !in s.used && uuid' !in s.used && uuid != uuid' && temp !in s.temps
    ensures Next(f, s, Operate(o, uuid), decided)
    ensures Next(f, decided, StageTemp(o, temp), staged)
    ensures Next(f, staged, Commit(o, uuid', true), saved)
    ensures Answered(saved, o, Ok) && saved.main == Some(Envelope(uuid, Some(json)))
  {
    decided := Decide(f, s, o, base, uuid);
    staged, saved := WriteCanRun(f, decided, o, base, Envelope(uuid, Some(json)), uuid', temp);
  }

  // A reset over text that does not read can keep it in quarantine, and go on to leave
  // nothing stored.
  lemma ResetCanRun(f: Format, s: State, o: L.Owner, text: string, base: Bytes, uuid: nat, uuid': nat, temp: nat)
      returns (decided: State, staged: State, kept: State)
    requires InTransaction(s, o) && s.txns[o].stage == Loaded(base) && s.txns[o].op == Reset
    requires base == Plain(text) || (base.Envelope? && base.raw == Some(text))
    requires !f.readable(text)
    requires uuid !in s.used && uuid' !in s.used && uuid != uuid' && temp !in s.temps
    ensures Next(f, s, Operate(o, uuid), decided)
    ensures Next(f, decided, StageTemp(o, temp), staged)
    ensures Next(f, staged, Commit(o, uuid', true), kept)
    ensures base in kept.quarantine && kept.main == s.main
    ensures InTransaction(kept, o) && GoesToWrite(kept, o, base, Envelope(uuid', None))
  {
    decided := Decide(f, s, o, base, uuid);
    staged := To(decided, o, QuarantineTemp(base, temp)).(temps := s.temps[temp := base]);
    kept := Publish(staged, o, uuid', true);
  }
}
