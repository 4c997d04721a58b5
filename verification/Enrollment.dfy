/**
 Enrollment: one credential-gated append at a time, with the installer's offer
 good for the first Burrow only.

 Enrollments are mutations chained one after another; the installer and crashes may
 interleave with every step of the one that is running.
 */
module Enrollment {
  import opened Common
  import M = MutateChain
  import O = EnrollOffer

  datatype Credential = EnrollToken(token: O.Token) | SetupPassword

  datatype Stage = Gate | Redeeming | Clearing | TakingAway | Writing

  datatype Running = Running(attempt: nat, credential: Credential, stage: Stage)

  datatype Row = Row(attempt: nat, credential: Credential)

  // `written` is every row an enrollment ever appended, in order; hand edits to
  // the file may delete rows from it but not the file itself. `asked` is the credential
  // of each enrollment asked for, and `running` the one whose steps are being taken.
  datatype State = State(
    offer: O.State,
    fileExists: bool,
    chain: M.State,
    asked: map<nat, Credential>,
    running: Option<Running>,
    written: seq<Row>)

  datatype Event =
    | Installer(e: O.Event)
    | Ask(attempt: nat, credential: Credential)
    | Start(attempt: nat)
    | CheckFirst
    | OfferStep(e: O.Event)
    | GateAnswers
    | Write
    | Fails
    | Crash

  predicate InstallerEvent(e: O.Event) {
    e.Publish? || e.InstallerRemoves?
  }

  function With(s: State, stage: Stage): State
    requires s.running.Some?
  {
    s.(running := Some(s.running.value.(stage := stage)))
  }

  ghost predicate Next(s: State, e: Event, t: State) {
    match e
    case Installer(oe) =>
      InstallerEvent(oe) && O.Next(s.offer, oe, t.offer) && t == s.(offer := t.offer)
    case Ask(a, credential) =>
      // An attempt's claim has a random name of its own.
      && a !in s.asked && M.Next(s.chain, M.Mutate(a), t.chain)
      && t == s.(chain := t.chain, asked := s.asked[a := credential])
    case Start(a) =>
      && a in s.asked && M.Next(s.chain, M.Begin(a), t.chain)
      && t == s.(chain := t.chain, running := Some(Running(a, s.asked[a], Gate)))
    case CheckFirst =>
      && s.running.Some? && s.running.value.stage == Gate
      && var r := s.running.value;
         (match r.credential
          case EnrollToken(token) =>
           if s.fileExists
           then O.Next(s.offer, O.BeginInvalidate(r.attempt), t.offer) && t == With(s, Clearing).(offer := t.offer)
           else O.Next(s.offer, O.BeginRedeem(r.attempt, token), t.offer) && t == With(s, Redeeming).(offer := t.offer)
          case SetupPassword =>
           if s.fileExists then t == With(s, Writing)
           else O.Next(s.offer, O.BeginInvalidate(r.attempt), t.offer) && t == With(s, TakingAway).(offer := t.offer))
    case OfferStep(oe) =>
      && s.running.Some? && O.StepOf(oe, s.running.value.attempt)
      && !oe.BeginRedeem? && !oe.BeginInvalidate?
      && O.Next(s.offer, oe, t.offer) && t == s.(offer := t.offer)
    case GateAnswers =>
      && s.running.Some?
      && var r := s.running.value;
      && r.attempt in s.offer.attempts && s.offer.attempts[r.attempt].Done?
      && (r.stage == Redeeming || r.stage == Clearing || r.stage == TakingAway)
      && var outcome := s.offer.attempts[r.attempt].outcome;
         if (r.stage == Redeeming && outcome.Redeemed?) || (r.stage == TakingAway && outcome.Invalidated?)
         then t == With(s, Writing)
         else Ends(s, t)
    case Write =>
      && s.running.Some? && s.running.value.stage == Writing
      && Ends(s.(fileExists := true, written := s.written + [Row(s.running.value.attempt, s.running.value.credential)]), t)
    case Fails =>
      // Too many Burrows, or a read or write that fails.
      s.running.Some? && Ends(s, t)
    case Crash =>
      // The process goes down, and with it every promise.
      t == s.(running := None, chain := M.Empty())
  }

  // The one running is over, resolved or rejected.
  ghost predicate Ends(s: State, t: State)
    requires s.running.Some?
  {
    && M.Next(s.chain, M.Settle(s.running.value.attempt), t.chain)
    && t == s.(running := None, chain := t.chain)
  }

  ghost predicate Run(states: seq<State>, events: seq<Event>) {
    && |states| == |events| + 1
    && O.Init(states[0].offer) && states[0].running == None && states[0].written == []
    && states[0].chain == M.Empty() && states[0].asked == map[]
    && forall i :: 0 <= i < |events| ==> Next(states[i], events[i], states[i + 1])
  }

  predicate RedeemedBy(s: O.State, a: nat) {
    a in s.attempts && s.attempts[a].Done? && s.attempts[a].outcome.Redeemed?
  }

  ghost predicate Inv(s: State, existed: bool) {
    && O.Inv(s.offer) && O.TokensOk(s.offer)
    && (s.fileExists <==> existed || s.written != [])
    // A token authorises only while nothing has ever been persisted.
    && (s.running.Some? && s.running.value.credential.EnrollToken? ==>
          var r := s.running.value;
          && (r.stage == Redeeming || r.stage == Writing ==> !s.fileExists)
          && r.stage != TakingAway
          && (r.stage == Redeeming ==> r.attempt in s.offer.supplied && s.offer.supplied[r.attempt] == r.credential.token)
          && (r.stage == Writing ==> Authorised(s.offer, Row(r.attempt, r.credential))))
    && (forall k :: 0 <= k < |s.written| && s.written[k].credential.EnrollToken? ==>
          k == 0 && !existed && Authorised(s.offer, s.written[k]))
  }

  // The row's attempt redeemed an offer that held the row's token.
  ghost predicate Authorised(s: O.State, row: Row)
    requires row.credential.EnrollToken?
  {
    && RedeemedBy(s, row.attempt)
    && s.attempts[row.attempt].outcome.inode in s.content
    && s.content[s.attempts[row.attempt].outcome.inode] == O.Offer(row.credential.token)
  }

  // The chain knows of one running exactly when one is.
  ghost predicate Serial(s: State) {
    && M.Inv(s.chain) && s.chain.status.Keys <= s.asked.Keys
    && (forall a :: a in s.chain.status && s.chain.status[a] == M.Running <==> s.running.Some? && s.running.value.attempt == a)
  }

  lemma NextKeepsSerial(s: State, e: Event, t: State)
    requires Serial(s) && Next(s, e, t)
    ensures Serial(t)
    ensures e.Start? ==> s.running.None?
  {
    M.EmptyHolds();
    hide O.Next, M.Linked, M.Orderly;
    match e
    case Ask(a, _) =>
      M.NextKeepsInv(s.chain, M.Mutate(a), t.chain);
    case Start(a) =>
      M.NextKeepsInv(s.chain, M.Begin(a), t.chain);
      if s.running.Some? { M.OnlyOneRuns(t.chain, a, s.running.value.attempt); }
    case GateAnswers =>
      if t.running.None? { M.NextKeepsInv(s.chain, M.Settle(s.running.value.attempt), t.chain); }
    case Write =>
      M.NextKeepsInv(s.chain, M.Settle(s.running.value.attempt), t.chain);
    case Fails =>
      M.NextKeepsInv(s.chain, M.Settle(s.running.value.attempt), t.chain);
    case _ =>
  }

  lemma OfferStepKeepsAuthority(s: O.State, e: O.Event, t: O.State, row: Row)
    requires O.Next(s, e, t) && row.credential.EnrollToken? && Authorised(s, row)
    ensures Authorised(t, row)
  {
  }

  lemma OfferStepKeepsSupplied(s: O.State, e: O.Event, t: O.State, a: nat)
    requires O.Next(s, e, t) && a in s.supplied && (e.BeginRedeem? ==> e.a != a)
    ensures a in t.supplied && t.supplied[a] == s.supplied[a]
  {
  }

  lemma OfferEventKeepsInv(s: State, oe: O.Event, t: State, existed: bool)
    requires Inv(s, existed) && O.Next(s.offer, oe, t.offer) && t == s.(offer := t.offer)
    requires !oe.BeginRedeem? && !oe.BeginInvalidate?
    ensures Inv(t, existed)
  {
    O.NextKeepsInv(s.offer, oe, t.offer);
    O.NextKeepsTokens(s.offer, oe, t.offer);
    forall k | 0 <= k < |s.written| && s.written[k].credential.EnrollToken?
      ensures Authorised(t.offer, s.written[k])
    {
      OfferStepKeepsAuthority(s.offer, oe, t.offer, s.written[k]);
    }
    if s.running.Some? && s.running.value.credential.EnrollToken? {
      var r := s.running.value;
      if r.stage == Writing {
        OfferStepKeepsAuthority(s.offer, oe, t.offer, Row(r.attempt, r.credential));
      } else if r.stage == Redeeming {
        OfferStepKeepsSupplied(s.offer, oe, t.offer, r.attempt);
      }
    }
    hide O.Inv, O.TokensOk, O.Next, Authorised;
  }

  lemma GateKeepsInv(s: State, t: State, existed: bool)
    requires Inv(s, existed) && Next(s, CheckFirst, t)
    ensures Inv(t, existed)
  {
    var r := s.running.value;
    var oe := if r.credential.EnrollToken? && !s.fileExists then O.BeginRedeem(r.attempt, r.credential.token)
              else O.BeginInvalidate(r.attempt);
    if t.offer != s.offer {
      O.NextKeepsInv(s.offer, oe, t.offer);
      O.NextKeepsTokens(s.offer, oe, t.offer);
      forall k | 0 <= k < |s.written| && s.written[k].credential.EnrollToken?
        ensures Authorised(t.offer, s.written[k])
      {
        OfferStepKeepsAuthority(s.offer, oe, t.offer, s.written[k]);
      }
    }
    hide O.Inv, O.TokensOk, Authorised;
  }

  lemma NextKeepsInv(s: State, e: Event, t: State, existed: bool)
    requires Inv(s, existed) && Next(s, e, t)
    ensures Inv(t, existed)
  {
    match e
    case Installer(oe) => hide Inv; OfferEventKeepsInv(s, oe, t, existed);
    case OfferStep(oe) => hide Inv; OfferEventKeepsInv(s, oe, t, existed);
    case CheckFirst => hide Inv; GateKeepsInv(s, t, existed);
    case GateAnswers => hide O.Inv;
    case _ => hide O.Inv, O.TokensOk, Authorised;
  }

  // ----- What goes right ------------------------------------------------------------------

  // Nothing is being enrolled, and the attempt's number is new.
  predicate Ready(s: State, a: nat) {
    && s.running.None? && s.chain == M.Empty() && a !in s.asked && a !in s.offer.attempts
  }

  // The two steps every enrollment begins with.
  lemma Begins(s: State, a: nat, credential: Credential) returns (asked: State, started: State)
    requires Ready(s, a)
    ensures Next(s, Ask(a, credential), asked) && Next(asked, Start(a), started)
    ensures started.running == Some(Running(a, credential, Gate)) && started.offer == s.offer
    ensures started.fileExists == s.fileExists && started.written == s.written
    ensures a in started.chain.status && started.chain.status[a] == M.Running
  {
    var waiting := M.State(Some(a), map[a := None], map[a := M.Waiting], [a]);
    asked := s.(chain := waiting, asked := s.asked[a := credential]);
    started := asked.(chain := waiting.(status := map[a := M.Running]), running := Some(Running(a, credential, Gate)));
    assert M.Next(s.chain, M.Mutate(a), waiting);
    assert map[a := M.Waiting][a := M.Running] == map[a := M.Running];
  }

  lemma Writes(s: State, a: nat, credential: Credential) returns (t: State)
    requires s.running == Some(Running(a, credential, Writing))
    requires a in s.chain.status && s.chain.status[a] == M.Running
    ensures Next(s, Write, t)
    ensures t.running.None? && t.fileExists && t.written == s.written + [Row(a, credential)] && t.offer == s.offer
  {
    t := s.(fileExists := true, written := s.written + [Row(a, credential)], running := None,
            chain := s.chain.(status := s.chain.status[a := M.Settled]));
  }

  lemma OfferMoves(s: State, oe: O.Event, offer: O.State)
    requires s.running.Some? && O.StepOf(oe, s.running.value.attempt) && !oe.BeginRedeem? && !oe.BeginInvalidate?
    requires O.Next(s.offer, oe, offer)
    ensures Next(s, OfferStep(oe), s.(offer := offer))
  {
    hide O.Next;
  }

  lemma GateOpens(s: State, a: nat, credential: Credential, stage: Stage, outcome: O.Outcome)
    requires s.running == Some(Running(a, credential, stage))
    requires a in s.offer.attempts && s.offer.attempts[a] == O.Done(outcome)
    requires (stage == Redeeming && outcome.Redeemed?) || (stage == TakingAway && outcome.Invalidated?)
    ensures Next(s, GateAnswers, s.(running := Some(Running(a, credential, Writing))))
  {
    hide O.Next;
  }

  // Left alone, the offer's token enrolls the first Burrow there is, and the offer is used up.
  lemma FirstBurrowEnrolls(s: State, a: nat, token: O.Token, inode: O.Inode) returns (path: seq<State>)
    requires Ready(s, a) && !s.fileExists
    requires s.offer.path == Some(inode) && inode in s.offer.content && s.offer.content[inode] == O.Offer(token)
    ensures |path| == 9
    ensures Next(s, Ask(a, EnrollToken(token)), path[0]) && Next(path[0], Start(a), path[1])
    ensures Next(path[1], CheckFirst, path[2])
    ensures Next(path[2], OfferStep(O.Accept(a)), path[3])
    ensures Next(path[3], OfferStep(O.Rename(a)), path[4])
    ensures Next(path[4], OfferStep(O.ClaimHolds(a)), path[5])
    ensures Next(path[5], OfferStep(O.Unlink(a)), path[6])
    ensures Next(path[6], GateAnswers, path[7]) && Next(path[7], Write, path[8])
    ensures path[8].written == s.written + [Row(a, EnrollToken(token))] && path[8].fileExists && path[8].offer.path.None?
  {
    hide O.Next, Next;
    var asked, started := Begins(s, a, EnrollToken(token));
    var redeeming := TokenIsRedeemed(started, a, token, inode);
    var s8 := Writes(redeeming[5], a, EnrollToken(token));
    path := [asked, started] + redeeming + [s8];
  }

  lemma TokenIsRedeemed(s: State, a: nat, token: O.Token, inode: O.Inode) returns (path: seq<State>)
    requires s.running == Some(Running(a, EnrollToken(token), Gate)) && a !in s.offer.attempts && !s.fileExists
    requires s.offer.path == Some(inode) && inode in s.offer.content && s.offer.content[inode] == O.Offer(token)
    ensures |path| == 6
    ensures Next(s, CheckFirst, path[0])
    ensures Next(path[0], OfferStep(O.Accept(a)), path[1])
    ensures Next(path[1], OfferStep(O.Rename(a)), path[2])
    ensures Next(path[2], OfferStep(O.ClaimHolds(a)), path[3])
    ensures Next(path[3], OfferStep(O.Unlink(a)), path[4])
    ensures Next(path[4], GateAnswers, path[5])
    ensures path[5] == s.(running := Some(Running(a, EnrollToken(token), Writing)), offer := path[5].offer)
    ensures path[5].offer.path.None?
  {
    hide O.Next, Next;
    var offers := O.RightTokenRedeems(s.offer, a, token, inode);
    ChecksToken(s, a, token, offers[0]);
    var s0 := With(s, Redeeming).(offer := offers[0]);
    OfferMoves(s0, O.Accept(a), offers[1]);
    OfferMoves(s0.(offer := offers[1]), O.Rename(a), offers[2]);
    OfferMoves(s0.(offer := offers[2]), O.ClaimHolds(a), offers[3]);
    OfferMoves(s0.(offer := offers[3]), O.Unlink(a), offers[4]);
    var s4 := s0.(offer := offers[4]);
    GateOpens(s4, a, EnrollToken(token), Redeeming, O.Redeemed(inode));
    path := [s0, s0.(offer := offers[1]), s0.(offer := offers[2]), s0.(offer := offers[3]), s4,
             s4.(running := Some(Running(a, EnrollToken(token), Writing)))];
  }

  lemma ChecksToken(s: State, a: nat, token: O.Token, offer: O.State)
    requires s.running == Some(Running(a, EnrollToken(token), Gate)) && !s.fileExists
    requires O.Next(s.offer, O.BeginRedeem(a, token), offer)
    ensures Next(s, CheckFirst, With(s, Redeeming).(offer := offer))
  {
    hide O.Next;
  }

  lemma ChecksPassword(s: State, a: nat, offer: O.State)
    requires s.running == Some(Running(a, SetupPassword, Gate))
    requires !s.fileExists ==> O.Next(s.offer, O.BeginInvalidate(a), offer)
    ensures Next(s, CheckFirst, if s.fileExists then With(s, Writing) else With(s, TakingAway).(offer := offer))
  {
    hide O.Next;
  }

  // With a Burrow already enrolled once, the password needs no offer.
  lemma PasswordEnrolls(s: State, a: nat) returns (path: seq<State>)
    requires Ready(s, a) && s.fileExists
    ensures |path| == 4
    ensures Next(s, Ask(a, SetupPassword), path[0]) && Next(path[0], Start(a), path[1])
    ensures Next(path[1], CheckFirst, path[2]) && Next(path[2], Write, path[3])
    ensures path[3].written == s.written + [Row(a, SetupPassword)] && path[3].offer == s.offer
  {
    hide O.Next, Next;
    var asked, started := Begins(s, a, SetupPassword);
    ChecksPassword(started, a, s.offer);
    var s2 := With(started, Writing);
    var s3 := Writes(s2, a, SetupPassword);
    path := [asked, started, s2, s3];
  }

  // The first Burrow by password takes the offer away before it is written.
  lemma PasswordEnrollsFirst(s: State, a: nat, inode: O.Inode) returns (path: seq<State>)
    requires Ready(s, a) && !s.fileExists && s.offer.path == Some(inode)
    ensures |path| == 7
    ensures Next(s, Ask(a, SetupPassword), path[0]) && Next(path[0], Start(a), path[1])
    ensures Next(path[1], CheckFirst, path[2])
    ensures Next(path[2], OfferStep(O.Rename(a)), path[3]) && Next(path[3], OfferStep(O.Unlink(a)), path[4])
    ensures Next(path[4], GateAnswers, path[5]) && Next(path[5], Write, path[6])
    ensures path[6].written == s.written + [Row(a, SetupPassword)] && path[6].fileExists && path[6].offer.path.None?
  {
    hide O.Next, Next;
    var asked, started := Begins(s, a, SetupPassword);
    var offers := O.OfferIsTakenAway(s.offer, a);
    ChecksPassword(started, a, offers[0]);
    var s2 := With(started, TakingAway).(offer := offers[0]);
    OfferMoves(s2, O.Rename(a), offers[1]);
    OfferMoves(s2.(offer := offers[1]), O.Unlink(a), offers[2]);
    var s4 := s2.(offer := offers[2]);
    GateOpens(s4, a, SetupPassword, TakingAway, O.Invalidated);
    var s5 := s4.(running := Some(Running(a, SetupPassword, Writing)));
    var s6 := Writes(s5, a, SetupPassword);
    path := [asked, started, s2, s2.(offer := offers[1]), s4, s5, s6];
  }

  // ----- Offers put back ------------------------------------------------------------

  // `i` was published before `j`.
  ghost predicate Before(published: seq<O.Inode>, i: O.Inode, j: O.Inode) {
    exists p, q :: 0 <= p < q < |published| && published[p] == i && published[q] == j
  }

  // What the running enrollment holds is older than what is at the path.
  ghost predicate ClaimIsOlder(s: State) {
    s.running.Some? && s.offer.path.Some? ==>
      forall i :: O.HeldBy(s.offer, s.running.value.attempt, i) ==> Before(s.offer.published, i, s.offer.path.value)
  }

  lemma PublishedLast(published: seq<O.Inode>, i: O.Inode, j: O.Inode)
    requires i in published
    ensures Before(published + [j], i, j)
  {
    var p :| 0 <= p < |published| && published[p] == i;
    assert (published + [j])[p] == i && (published + [j])[|published|] == j;
  }

  lemma OfferStepKeepsOrder(s: O.State, e: O.Event, t: O.State, a: nat)
    requires O.Inv(s) && O.Ordered(s) && O.Next(s, e, t) && (O.StepOf(e, a) || e.Publish? || e.InstallerRemoves?)
    requires s.path.Some? ==> forall i :: O.HeldBy(s, a, i) ==> Before(s.published, i, s.path.value)
    ensures t.path.Some? ==> forall i :: O.HeldBy(t, a, i) ==> Before(t.published, i, t.path.value)
  {
    if t.path.Some? {
      forall i | O.HeldBy(t, a, i)
        ensures Before(t.published, i, t.path.value)
      {
        O.ClaimsComeFromRenames(s, e, t, a, i);
        if e.Publish? {
          PublishedLast(s.published, i, e.inode);
        } else if e.Link? {
          assert O.HeldBy(s, a, s.attempts[a].inode);
        }
      }
    }
  }

  // Only an enrollment that has begun is at the offer.
  ghost predicate Begun(s: State) {
    forall a :: a in s.offer.attempts ==> a in s.asked && (a in s.chain.status ==> s.chain.status[a] != M.Waiting)
  }

  // The step the offer takes, if it takes one.
  function OfferEvent(s: State, e: Event): Option<O.Event>
    requires e.CheckFirst? ==> s.running.Some?
  {
    match e
    case Installer(oe) => Some(oe)
    case OfferStep(oe) => Some(oe)
    case CheckFirst =>
      var r := s.running.value;
      if r.credential.EnrollToken? && !s.fileExists then Some(O.BeginRedeem(r.attempt, r.credential.token))
      else if r.credential.SetupPassword? && s.fileExists then None
      else Some(O.BeginInvalidate(r.attempt))
    case _ => None
  }

  lemma OfferTakes(s: State, e: Event, t: State)
    requires Next(s, e, t)
    ensures var oe := OfferEvent(s, e);
      if oe.None? then t.offer == s.offer
      else
        && O.Next(s.offer, oe.value, t.offer)
        && (InstallerEvent(oe.value) || (s.running.Some? && O.StepOf(oe.value, s.running.value.attempt)))
        && t.chain == s.chain && t.asked == s.asked
        && (s.running.Some? <==> t.running.Some?)
        && (s.running.Some? ==> t.running.value.attempt == s.running.value.attempt)
  {
    hide O.Next, M.Next;
  }

  lemma NextKeepsBegun(s: State, e: Event, t: State)
    requires Serial(s) && Begun(s) && Next(s, e, t)
    ensures Begun(t)
  {
    OfferTakes(s, e, t);
    var oe := OfferEvent(s, e);
    if oe.Some? {
      O.AttemptsBegin(s.offer, oe.value, t.offer);
      hide O.Next, M.Inv, Next;
    } else {
      hide O.Next, M.Inv, OfferEvent;
    }
  }

  lemma NextKeepsOrder(s: State, e: Event, t: State, existed: bool)
    requires Inv(s, existed) && O.Ordered(s.offer) && Serial(s) && Begun(s) && ClaimIsOlder(s) && Next(s, e, t)
    ensures O.Ordered(t.offer) && ClaimIsOlder(t)
  {
    OfferTakes(s, e, t);
    var oe := OfferEvent(s, e);
    if oe.Some? {
      O.NextKeepsOrder(s.offer, oe.value, t.offer);
      if s.running.Some? {
        OfferStepKeepsOrder(s.offer, oe.value, t.offer, s.running.value.attempt);
      }
      hide O.Next, O.Inv, O.Ordered, Next, Serial, Begun;
    } else {
      if e.Start? { assert e.attempt !in s.offer.attempts; }
      hide O.Next, O.Inv, O.Ordered, Before, OfferEvent;
    }
  }

  lemma {:induction false} RunKeepsInv(states: seq<State>, events: seq<Event>, i: nat)
    requires Run(states, events) && i < |states|
    ensures Inv(states[i], states[0].fileExists) && Serial(states[i])
    ensures O.Ordered(states[i].offer) && Begun(states[i]) && ClaimIsOlder(states[i])
  {
    if i == 0 {
      M.EmptyHolds();
    } else {
      RunKeepsInv(states, events, i - 1);
      assert Next(states[i - 1], events[i - 1], states[i]);
      hide Inv, Next, Serial, Begun, ClaimIsOlder, O.Ordered;
      NextKeepsInv(states[i - 1], events[i - 1], states[i], states[0].fileExists);
      NextKeepsSerial(states[i - 1], events[i - 1], states[i]);
      NextKeepsBegun(states[i - 1], events[i - 1], states[i]);
      NextKeepsOrder(states[i - 1], events[i - 1], states[i], states[0].fileExists);
    }
  }

  // An enrollment begins only when none is under way.
  lemma NeverTwoAtOnce(states: seq<State>, events: seq<Event>, i: nat)
    requires Run(states, events) && i < |events| && events[i].Start?
    ensures states[i].running.None?
  {
    RunKeepsInv(states, events, i);
    assert Next(states[i], events[i], states[i + 1]);
    hide Inv, Next, Serial, Begun, ClaimIsOlder, O.Ordered;
    NextKeepsSerial(states[i], events[i], states[i + 1]);
  }

  // In every run at most one row is ever authorised by an enroll token. It is the
  // first row the Relay ever wrote, and its attempt redeemed an offer holding
  // exactly that token.
  lemma TokenEnrollsOnlyTheFirstBurrow(states: seq<State>, events: seq<Event>, i: nat, k: nat)
    requires Run(states, events) && i < |states|
    requires k < |states[i].written| && states[i].written[k].credential.EnrollToken?
    ensures k == 0 && !states[0].fileExists
    ensures Authorised(states[i].offer, states[i].written[0])
  {
    RunKeepsInv(states, events, i);
  }

  // A step at which an enrollment gives up the generation it holds: its link refused,
  // or the path taken by another, published after it.
  predicate GivesUp(s: State, e: Event, a: nat, inode: O.Inode) {
    && e.OfferStep? && O.LinkRejected(s.offer, e.e, a)
    && a in s.offer.attempts && s.offer.attempts[a] == O.PutBack(inode)
  }

  lemma {:induction false} DroppedWasGivenUp(states: seq<State>, events: seq<Event>, j: nat, a: nat, inode: O.Inode)
    returns (k: nat)
    requires Run(states, events) && j < |states| && O.Drops(states[j].offer, a, inode)
    ensures k < j && GivesUp(states[k], events[k], a, inode)
    decreases j
  {
    var s, e, t := states[j - 1], events[j - 1], states[j];
    assert Next(s, e, t);
    OfferTakes(s, e, t);
    hide Next, O.Next;
    if O.Drops(s.offer, a, inode) {
      k := DroppedWasGivenUp(states, events, j - 1, a, inode);
    } else {
      O.DropsComeFromLinks(s.offer, OfferEvent(s, e).value, t.offer, a, inode);
      k := j - 1;
    }
  }

  // Because enrollments never overlap, an offer is dropped as a wrong claim only when its
  // link was refused, or when the path held one published after it.
  lemma DroppedForANewer(states: seq<State>, events: seq<Event>, j: nat, inode: O.Inode) returns (k: nat)
    requires Run(states, events) && j < |states| && inode in states[j].offer.dropped
    ensures k < j && GivesUp(states[k], events[k], states[j].offer.dropped[inode], inode)
    ensures var s, a := states[k].offer, states[j].offer.dropped[inode];
      events[k] == OfferStep(O.LinkFails(a)) || (s.path.Some? && Before(s.published, inode, s.path.value))
  {
    var a := states[j].offer.dropped[inode];
    k := DroppedWasGivenUp(states, events, j, a, inode);
    RunKeepsInv(states, events, k);
    var s, e, t := states[k], events[k], states[k + 1];
    assert Next(s, e, t);
    OfferTakes(s, e, t);
    assert O.HeldBy(s.offer, a, inode);
    hide Next, O.Next, Inv, Serial, Begun, O.Ordered, Before;
  }
}
