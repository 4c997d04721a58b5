/**
 The stat-keyed cache of a state file: readers that stat, look and read, interleaved
 with each other, with atomic rewrites and with edits by hand.
 */
module StateCache {
  import opened Common

  type Key = nat
  type Row = nat

  // A parsed value: an array of rows, or a value of any other shape.
  datatype Value = Rows(rows: seq<Row>) | Other(what: nat)

  // What the file holds: a value, JSON null, or text that does not parse.
  datatype Content = Json(value: Value) | Null | Garbage

  // The file at one instant. The key is its inode, size and mtime together.
  datatype Version = Absent | Present(key: Key, content: Content)

  // What a read ends in; a file that is absent or holds null answers null.
  datatype Outcome = Answers(value: Option<Value>) | Throws

  function ReadOf(v: Version): Outcome {
    if v.Absent? || v.content.Null? then Answers(None)
    else if v.content.Json? then Answers(Some(v.content.value))
    else Throws
  }

  // ----- Steps ----------------------------------------------------------------------
  // `log` is every version the file has been, the last one current. Readers and the
  // cache remember, besides what the code does, which versions they looked at.

  datatype Cached = Cached(key: Key, value: Value, statted: nat, readFrom: nat)

  datatype Reader =
    | Called(start: nat)
    | Statted(start: nat, statted: nat)
    | Missed(start: nat, statted: nat)
    | Fetched(start: nat, statted: nat, readFrom: nat)

  datatype World = World(log: seq<Version>, cached: Option<Cached>, readers: map<nat, Reader>)

  datatype Event =
    | Call(r: nat)
    | Stat(r: nat)
    // The stat's answer reaches the reader.
    | Look(r: nat)
    | Fetch(r: nat)
    // The file's text reaches the reader.
    | Parse(r: nat)
    // A rename over the path, an edit by hand, or a removal.
    | Change(version: Version)
    // The writer's continuation after its rename.
    | DropCache

  function Current(w: World): nat
    requires w.log != []
  {
    |w.log| - 1
  }

  // A stat key is new whenever the file changes.
  ghost predicate NewKey(log: seq<Version>, v: Version) {
    v.Present? ==> forall k :: 0 <= k < |log| && log[k].Present? ==> log[k].key != v.key
  }

  // Which step may come next; the bounds on versions hold in every run.
  ghost predicate Allowed(w: World, e: Event) {
    && w.log != []
    && match e
       case Call(r) => r !in w.readers
       case Stat(r) => r in w.readers && w.readers[r].Called?
       case Look(r) => r in w.readers && w.readers[r].Statted? && w.readers[r].statted < |w.log|
       case Fetch(r) => r in w.readers && w.readers[r].Missed?
       case Parse(r) => r in w.readers && w.readers[r].Fetched? && w.readers[r].readFrom < |w.log|
                        && w.readers[r].statted < |w.log| && w.log[w.readers[r].statted].Present?
       case Change(v) => NewKey(w.log, v)
       case DropCache => true
  }

  predicate Hit(w: World, statted: nat)
    requires statted < |w.log|
  {
    w.log[statted].Present? && w.cached.Some? && w.cached.value.key == w.log[statted].key
  }

  // What a call ends in at this step, if it ends.
  function Ends(w: World, e: Event): Option<Outcome>
    requires Allowed(w, e)
  {
    match e
    case Look(r) =>
      var statted := w.readers[r].statted;
      if w.log[statted].Absent? then Some(Answers(None))
      else if Hit(w, statted) then Some(Answers(Some(w.cached.value.value)))
      else None
    case Parse(r) => Some(ReadOf(w.log[w.readers[r].readFrom]))
    case _ => None
  }

  function Step(w: World, e: Event): World
    requires Allowed(w, e)
  {
    match e
    case Call(r) => w.(readers := w.readers[r := Called(Current(w))])
    case Stat(r) => w.(readers := w.readers[r := Statted(w.readers[r].start, Current(w))])
    case Look(r) =>
      var reader := w.readers[r];
      if w.log[reader.statted].Absent? then w.(cached := None, readers := w.readers - {r})
      else if Hit(w, reader.statted) then w.(readers := w.readers - {r})
      else w.(readers := w.readers[r := Missed(reader.start, reader.statted)])
    case Fetch(r) =>
      var reader := w.readers[r];
      w.(readers := w.readers[r := Fetched(reader.start, reader.statted, Current(w))])
    case Parse(r) =>
      var reader := w.readers[r];
      var out := ReadOf(w.log[reader.readFrom]);
      var cached :=
        if out.Throws? then w.cached
        else if out.value.None? then None
        else Some(Cached(w.log[reader.statted].key, out.value.value, reader.statted, reader.readFrom));
      w.(cached := cached, readers := w.readers - {r})
    case Change(v) => w.(log := w.log + [v])
    case DropCache => w.(cached := None)
  }

  ghost predicate Run(worlds: seq<World>, events: seq<Event>) {
    && |worlds| == |events| + 1
    && (exists v :: worlds[0] == World([v], None, map[]))
    && forall i :: 0 <= i < |events| ==> Allowed(worlds[i], events[i]) && worlds[i + 1] == Step(worlds[i], events[i])
  }

  // ----- What every step keeps ----------------------------------------------------------

  ghost predicate DistinctKeys(log: seq<Version>) {
    forall i, j :: 0 <= i < j < |log| && log[i].Present? && log[j].Present? ==> log[i].key != log[j].key
  }

  ghost predicate ReaderOk(log: seq<Version>, r: Reader) {
    && r.start < |log|
    && (!r.Called? ==> r.start <= r.statted < |log|)
    && (r.Missed? || r.Fetched? ==> log[r.statted].Present?)
    && (r.Fetched? ==> r.statted <= r.readFrom < |log|)
  }

  // What is cached was read no earlier than the version whose key it is filed under.
  ghost predicate CachedOk(log: seq<Version>, c: Cached) {
    && c.statted <= c.readFrom < |log|
    && log[c.statted].Present? && log[c.statted].key == c.key
    && ReadOf(log[c.readFrom]) == Answers(Some(c.value))
  }

  ghost predicate Inv(w: World) {
    && w.log != []
    && DistinctKeys(w.log)
    && (w.cached.Some? ==> CachedOk(w.log, w.cached.value))
    && forall r :: r in w.readers ==> ReaderOk(w.log, w.readers[r])
  }

  lemma StepKeepsInv(w: World, e: Event)
    requires Inv(w) && Allowed(w, e)
    ensures Inv(Step(w, e))
  {
  }

  lemma {:induction false} RunKeepsInv(worlds: seq<World>, events: seq<Event>, i: nat)
    requires Run(worlds, events) && i < |worlds|
    ensures Inv(worlds[i])
  {
    if i > 0 {
      hide Inv, Step, Allowed;
      RunKeepsInv(worlds, events, i - 1);
      StepKeepsInv(worlds[i - 1], events[i - 1]);
    }
  }

  // The call that ends at step `i` began at step `from`.
  ghost predicate CallOf(worlds: seq<World>, events: seq<Event>, from: nat, i: nat, r: nat)
    requires Run(worlds, events)
  {
    && from < i < |events|
    && events[from] == Call(r)
    && forall k :: from < k <= i ==> r in worlds[k].readers
  }

  // The log only grows, and a reader keeps the instant its call began.
  lemma {:induction false} CallRemembers(worlds: seq<World>, events: seq<Event>, from: nat, i: nat, r: nat)
    requires Run(worlds, events) && CallOf(worlds, events, from, i, r)
    ensures worlds[from].log != [] && worlds[i].readers[r].start == Current(worlds[from])
    decreases i
  {
    if i > from + 1 {
      assert CallOf(worlds, events, from, i - 1, r);
      CallRemembers(worlds, events, from, i - 1, r);
    }
  }

  // Whatever interleaves with it, a call ends in what the file was at some instant
  // between its beginning and its end.
  lemma AnswersAnInstantOfTheCall(worlds: seq<World>, events: seq<Event>, from: nat, i: nat, r: nat) returns (at: nat)
    requires Run(worlds, events) && CallOf(worlds, events, from, i, r)
    requires (events[i] == Look(r) || events[i] == Parse(r)) && Ends(worlds[i], events[i]).Some?
    ensures |worlds[from].log| - 1 <= at < |worlds[i].log|
    ensures Ends(worlds[i], events[i]).value == ReadOf(worlds[i].log[at])
  {
    var w := worlds[i];
    RunKeepsInv(worlds, events, i);
    CallRemembers(worlds, events, from, i, r);
    var reader := w.readers[r];
    if events[i] == Parse(r) {
      at := reader.readFrom;
    } else if w.log[reader.statted].Absent? {
      at := reader.statted;
    } else {
      at := w.cached.value.readFrom;
      assert w.cached.value.statted == reader.statted;
    }
  }

  // ----- The store, one call at a time --------------------------------------------------

  // A read no other step interleaves with.
  function ReadAlone(w: World): (World, Outcome)
    requires w.log != [] && w.readers == map[]
  {
    var looking := Step(Step(w, Call(0)), Stat(0));
    var looked := Step(looking, Look(0));
    var answer := Ends(looking, Look(0));
    if answer.Some? then (looked, answer.value)
    else
      var fetched := Step(looked, Fetch(0));
      (Step(fetched, Parse(0)), Ends(fetched, Parse(0)).value)
  }

  // It answers what the file is, from the cache or not.
  lemma ReadAloneIsExact(w: World)
    requires Inv(w) && w.readers == map[]
    ensures var (after, answer) := ReadAlone(w);
      && Inv(after) && after.log == w.log && after.readers == map[]
      && answer == ReadOf(w.log[Current(w)])
  {
  }

  // What it leaves cached.
  lemma ReadAloneCaches(w: World)
    requires Inv(w) && w.readers == map[]
    ensures var after, now := ReadAlone(w).0, w.log[Current(w)];
      after == w.(cached :=
        if now.Absent? then None
        else if w.cached.Some? && w.cached.value.key == now.key then w.cached
        else match now.content
             case Garbage => w.cached
             case Null => None
             case Json(value) => Some(Cached(now.key, value, Current(w), Current(w))))
  {
  }

  // What the enrolled set is of a file: none where it does not parse.
  function ListOf(valid: Row -> bool, v: Version): Option<seq<Row>> {
    match ReadOf(v)
    case Throws => None
    case Answers(None) => Some([])
    case Answers(Some(Other(_))) => Some([])
    case Answers(Some(Rows(rows))) => Some(Filter(valid, rows))
  }

  // The rows of a file's array that are valid, in order, if it holds an array.
  function RowsIn(valid: Row -> bool, v: Version): seq<Row> {
    if v.Present? && v.content.Json? && v.content.value.Rows? then Filter(valid, v.content.value.rows) else []
  }

  // Only text that does not parse keeps the enrolled set from being known.
  lemma ListOfIs(valid: Row -> bool, v: Version)
    ensures ListOf(valid, v) == if v.Present? && v.content.Garbage? then None else Some(RowsIn(valid, v))
  {
  }

  const MAX_ENROLLED_BURROWS := 32

  // The file once a row is enrolled, under its new key.
  function Enrolled(valid: Row -> bool, v: Version, burrow: Row, key: Key): Version {
    var rows := ListOf(valid, v);
    if rows.None? || |rows.value| >= MAX_ENROLLED_BURROWS then v
    else Present(key, Json(Rows(rows.value + [burrow])))
  }

  function EnrolledAll(valid: Row -> bool, v: Version, burrows: seq<Row>, keys: seq<Key>): Version
    requires |keys| == |burrows|
  {
    if burrows == [] then v
    else
      var k := |burrows| - 1;
      Enrolled(valid, EnrolledAll(valid, v, burrows[..k], keys[..k]), burrows[k], keys[k])
  }

  // However many are enrolled one after another, and with no cache in sight, none is lost:
  // those enrolled before come first, as far as the limit.
  lemma {:induction false} EnrollmentsAdd(valid: Row -> bool, v: Version, burrows: seq<Row>, keys: seq<Key>)
    requires |keys| == |burrows| && ListOf(valid, v).Some?
    requires forall b :: b in burrows ==> valid(b)
    requires |ListOf(valid, v).value| <= MAX_ENROLLED_BURROWS
    ensures var room := MAX_ENROLLED_BURROWS - |ListOf(valid, v).value|;
      ListOf(valid, EnrolledAll(valid, v, burrows, keys)) ==
        Some(ListOf(valid, v).value + burrows[..if |burrows| <= room then |burrows| else room])
  {
    hide ListOf, Enrolled;
    var before := ListOf(valid, v).value;
    if burrows == [] {
      assert before + burrows[..0] == before;
    } else {
      var k := |burrows| - 1;
      var room := MAX_ENROLLED_BURROWS - |before|;
      EnrollmentsAdd(valid, v, burrows[..k], keys[..k]);
      assert burrows[k] in burrows;
      EnrolledList(valid, EnrolledAll(valid, v, burrows[..k], keys[..k]), burrows[k], keys[k]);
      if |burrows| <= room {
        assert burrows[..k][..k] == burrows[..k];
        assert before + burrows[..k] + [burrows[k]] == before + burrows[..k + 1];
      } else {
        assert burrows[..k][..room] == burrows[..room];
      }
    }
  }

  lemma EnrolledList(valid: Row -> bool, v: Version, burrow: Row, key: Key)
    requires ListOf(valid, v).Some? && valid(burrow)
    ensures var rows := ListOf(valid, v).value;
      ListOf(valid, Enrolled(valid, v, burrow, key)) ==
        Some(if |rows| < MAX_ENROLLED_BURROWS then rows + [burrow] else rows)
  {
    var rows := ListOf(valid, v).value;
    ListIsValid(valid, v);
    FilterAppend(valid, rows, burrow);
    FilterAll(valid, rows);
  }

  lemma ListIsValid(valid: Row -> bool, v: Version)
    requires ListOf(valid, v).Some?
    ensures forall x :: x in ListOf(valid, v).value ==> valid(x)
  {
    if ReadOf(v).Answers? && ReadOf(v).value.Some? && ReadOf(v).value.value.Rows? {
      FilterMembers(valid, ReadOf(v).value.value.rows);
    }
  }

  lemma {:induction false} FilterAll(valid: Row -> bool, s: seq<Row>)
    requires forall x :: x in s ==> valid(x)
    ensures Filter(valid, s) == s
  {
    if s != [] {
      FilterAll(valid, s[..|s| - 1]);
    }
  }

  // What comes to a store between restarts, one call at a time.
  datatype Op = Reading | Enrolling(burrow: Row, key: Key) | Editing(version: Version)

  function After(valid: Row -> bool, v: Version, op: Op): Version {
    match op
    case Reading => v
    case Enrolling(burrow, key) => Enrolled(valid, v, burrow, key)
    case Editing(version) => version
  }

  function AfterAll(valid: Row -> bool, v: Version, ops: seq<Op>): Version {
    if ops == [] then v else After(valid, AfterAll(valid, v, ops[..|ops| - 1]), ops[|ops| - 1])
  }

  function Writes(op: Op): Version {
    match op
    case Reading => Absent
    case Enrolling(_, key) => Present(key, Null)
    case Editing(version) => version
  }

  // Every write is filed under a key no version had.
  ghost predicate NewKeys(log: seq<Version>, ops: seq<Op>) {
    && (forall k :: 0 <= k < |ops| ==> NewKey(log, Writes(ops[k])))
    && forall j, k :: 0 <= j < k < |ops| && Writes(ops[j]).Present? && Writes(ops[k]).Present? ==>
         Writes(ops[j]).key != Writes(ops[k]).key
  }

  class RowArray {
    var items: seq<Row>

    constructor (items: seq<Row>)
      ensures this.items == items
    {
      this.items := items;
    }

    method Add(x: Row)
      modifies this
      ensures items == old(items) + [x]
    {
      items := items + [x];
    }
  }

  // A parsed value as it is handed out: an array is shared, not copied.
  datatype Parsed = Array(rows: RowArray) | Scalar(what: nat)

  datatype Slot = Slot(key: Key, value: Parsed)

  datatype Answer = Threw | Nothing | Found(value: Parsed)

  datatype EnrollResult = Done | LimitReached | Failed

  // `file` is what stands on disk, and `slot` the cache. The rest only the history knows:
  // every version the file has been, the versions the cache was filled from, and what
  // each array ever cached held when it was handed out.
  class BurrowStore {
    var file: Version
    var slot: Option<Slot>
    ghost var log: seq<Version>
    ghost var statted: nat
    ghost var readFrom: nat
    ghost var handed: map<RowArray, seq<Row>>

    // The store as a world of the interleaved model, with no reader under way.
    ghost function View(): World
      reads this, if slot.Some? && slot.value.value.Array? then {slot.value.value.rows} else {}
    {
      World(log, if slot.None? then None else Some(Cached(slot.value.key, Meaning(slot.value.value), statted, readFrom)), map[])
    }

    ghost predicate Valid()
      reads this, handed.Keys, if slot.Some? && slot.value.value.Array? then {slot.value.value.rows} else {}
    {
      && Inv(View()) && file == log[|log| - 1]
      && (slot.Some? && slot.value.value.Array? ==> slot.value.value.rows in handed)
      && (forall a :: a in handed ==> a.items == handed[a])
    }

    // Every array handed out before holds what it held.
    twostate predicate Undisturbed()
      reads this
    {
      forall a :: a in old(handed) ==> a in handed && handed[a] == old(handed[a])
    }

    constructor (found: Version)
      ensures Valid() && file == found && handed == map[] && slot == None
    {
      file, slot, log, statted, readFrom, handed := found, None, [found], 0, 0, map[];
    }

    // A stat, and the cached value where it is filed under that; else the file's own.
    method ReadCached() returns (r: Answer)
      requires Valid()
      modifies this
      ensures Valid() && Undisturbed() && file == old(file) && log == old(log)
      ensures View() == ReadAlone(old(View())).0
      ensures match r
              case Threw => ReadOf(file) == Throws
              case Nothing => ReadOf(file) == Answers(None)
              case Found(value) => ReadOf(file) == Answers(Some(Meaning(value))) && (value.Array? ==> value.rows in handed)
      // It throws exactly on text that does not parse, answers nothing where there is no file
      // or its whole content is null, and answers the value there is otherwise.
      ensures r.Threw? <==> file.Present? && file.content.Garbage?
      ensures r.Nothing? <==> file.Absent? || file.content.Null?
      ensures r.Found? ==> file.Present? && file.content == Json(Meaning(r.value))
    {
      hide ReadAlone;
      ReadAloneIsExact(View());
      ReadAloneCaches(View());
      if file.Absent? {
        slot := None;
        return Nothing;
      }
      if slot.Some? && slot.value.key == file.key { return Found(slot.value.value); }
      match file.content
      case Garbage =>
        return Threw;
      case Null =>
        slot := None;
        return Nothing;
      case Json(value) =>
        var parsed;
        match value {
          case Rows(rows) =>
            var a := new RowArray(rows);
            handed := handed[a := rows];
            parsed := Array(a);
          case Other(what) =>
            parsed := Scalar(what);
        }
        slot, statted, readFrom := Some(Slot(file.key, parsed)), |log| - 1, |log| - 1;
        return Found(parsed);
    }

    // The valid rows, as a new array.
    method List(valid: Row -> bool) returns (rows: Option<RowArray>)
      requires Valid()
      modifies this
      ensures Valid() && Undisturbed() && file == old(file) && log == old(log)
      ensures rows.None? <==> ListOf(valid, file).None?
      ensures rows.Some? ==>
        fresh(rows.value) && rows.value !in handed && ListOf(valid, file) == Some(rows.value.items)
      // It throws only as the read does. Else it lists the valid rows of an array, and of
      // anything else, or nothing, none.
      ensures rows.None? <==> file.Present? && file.content.Garbage?
      ensures rows.Some? ==> rows.value.items == RowsIn(valid, file)
    {
      var r := ReadCached();
      match r
      case Threw =>
        return None;
      case Nothing =>
        var a := new RowArray([]);
        return Some(a);
      case Found(value) =>
        match value {
          case Array(shared) =>
            var a := new RowArray(Filter(valid, shared.items));
            return Some(a);
          case Scalar(_) =>
            var a := new RowArray([]);
            return Some(a);
        }
    }

    // Appends to what the file lists, whatever is cached, and writes it; no array handed
    // out is disturbed.
    method Enroll(valid: Row -> bool, burrow: Row, key: Key) returns (r: EnrollResult)
      requires Valid() && NewKey(log, Present(key, Null))
      modifies this
      ensures Valid() && Undisturbed()
      ensures file == Enrolled(valid, old(file), burrow, key)
      ensures r == match ListOf(valid, old(file))
                   case None => Failed
                   case Some(rows) => if |rows| >= MAX_ENROLLED_BURROWS then LimitReached else Done
      ensures log == if r.Done? then old(log) + [file] else old(log)
      // A file that does not parse is left as it is, and so is one that lists 32; any other
      // ends as its valid rows and the new one.
      ensures old(file).Present? && old(file).content.Garbage? ==> r == Failed && file == old(file)
      ensures !(old(file).Present? && old(file).content.Garbage?) ==>
        var were := RowsIn(valid, old(file));
        if |were| >= 32 then r == LimitReached && file == old(file)
        else r == Done && file == Present(key, Json(Rows(were + [burrow])))
    {
      var rows := List(valid);
      if rows.None? { return Failed; }
      if |rows.value.items| >= MAX_ENROLLED_BURROWS { return LimitReached; }
      rows.value.Add(burrow);
      Write(Present(key, Json(Rows(rows.value.items))));
      slot := None;
      return Done;
    }

    // Whatever comes, and whatever is cached on the way, the file ends as the same changes
    // to the file alone would leave it, and every array handed out before is as it was.
    method Serve(valid: Row -> bool, ops: seq<Op>)
      requires Valid() && NewKeys(log, ops)
      modifies this
      ensures Valid() && file == AfterAll(valid, old(file), ops)
      ensures forall a :: a in old(handed) ==> a.items == old(a.items)
    {
      var i := 0;
      while i < |ops|
        invariant 0 <= i <= |ops| && Valid() && Undisturbed()
        invariant file == AfterAll(valid, old(file), ops[..i])
        invariant forall k :: i <= k < |ops| ==> NewKey(log, Writes(ops[k]))
      {
        assert ops[..i + 1][..i] == ops[..i];
        match ops[i] {
          case Reading =>
            var r := ReadCached();
          case Enrolling(burrow, key) =>
            assert NewKey(log, Writes(ops[i]));
            var r := Enroll(valid, burrow, key);
          case Editing(version) =>
            assert NewKey(log, Writes(ops[i]));
            Write(version);
        }
        i := i + 1;
      }
      assert ops[..i] == ops;
    }

    // A rename over the path, or an edit by hand: the file is another from then on.
    method Write(v: Version)
      requires Valid() && NewKey(log, v)
      modifies this
      ensures Valid() && file == v && log == old(log) + [v] && handed == old(handed) && slot == old(slot)
    {
      StepKeepsInv(View(), Change(v));
      file, log := v, log + [v];
    }
  }

  ghost function Meaning(value: Parsed): Value
    reads if value.Array? then {value.rows} else {}
  {
    match value
    case Array(a) => Rows(a.items)
    case Scalar(what) => Other(what)
  }
}
