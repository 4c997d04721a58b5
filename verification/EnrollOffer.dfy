/**
 The installer's one-time enrollment offer: redeemed, taken away, or put back by
 rename, read and link, while the installer may republish it at any moment.

 An inode is one generation of the offer. Any number of attempts run at once;
 one that never steps again has crashed.
 */
module EnrollOffer {
  import opened Common

  type Inode = nat
  type Token = nat

  // The bytes of one published file: an offer, or text that is not one.
  datatype Content = Offer(token: Token) | Unparseable

  datatype Outcome = Redeemed(inode: Inode) | Rejected | Invalidated | NotInvalidated

  // Where an attempt stands. A claim is the attempt's own `.spent-*` name.
  datatype Phase =
    | ReadOffer(supplied: Token)
    | Claim(verified: Token)
    | CheckClaim(verified: Token, inode: Inode)
    | Spend(verified: Token, inode: Inode)
    | PutBack(inode: Inode)
    | DropClaim(inode: Inode)
    | DropOnly(inode: Inode)
    | TakeAway
    | DropTaken(inode: Inode)
    | Done(outcome: Outcome)

  // Histories no step reads: the token each redemption was given; the generations in
  // the order they were published; those another was published over; those that were
  // deleted; and those deleted as wrong claims, each with the attempt that did it.
  datatype State = State(
    content: map<Inode, Content>,
    path: Option<Inode>,
    attempts: map<nat, Phase>,
    supplied: map<nat, Token>,
    published: seq<Inode>,
    superseded: set<Inode>,
    removed: set<Inode>,
    dropped: map<Inode, nat>)

  datatype Event =
    | Publish(inode: Inode, text: Content)
    | InstallerRemoves
    | BeginRedeem(a: nat, supplied: Token)
    | BeginInvalidate(a: nat)
    | Refuse(a: nat)
    | Accept(a: nat)
    | Rename(a: nat)
    | RenameFails(a: nat)
    | ClaimHolds(a: nat)
    | ClaimDiffers(a: nat)
    | Link(a: nat)
    | LinkFails(a: nat)
    | Unlink(a: nat)

  function At(s: State, a: nat, p: Phase): State {
    s.(attempts := s.attempts[a := p])
  }

  function AsSet(p: Option<Inode>): set<Inode> {
    if p.Some? then {p.value} else {}
  }

  ghost predicate Next(s: State, e: Event, t: State) {
    match e
    case Publish(inode, text) =>
      // A finished file is renamed over the path, replacing what was there.
      && inode !in s.content
      && t == s.(content := s.content[inode := text], path := Some(inode), published := s.published + [inode],
                 superseded := s.superseded + AsSet(s.path))
    case InstallerRemoves =>
      t == s.(path := None, removed := s.removed + AsSet(s.path))
    case BeginRedeem(a, supplied) =>
      a !in s.attempts && t == At(s, a, ReadOffer(supplied)).(supplied := s.supplied[a := supplied])
    case BeginInvalidate(a) =>
      a !in s.attempts && t == At(s, a, TakeAway)
    case Refuse(a) =>
      // Malformed, absent, unreadable, expired or wrong: all one answer.
      && a in s.attempts && s.attempts[a].ReadOffer?
      && t == At(s, a, Done(Rejected))
    case Accept(a) =>
      && a in s.attempts && s.attempts[a].ReadOffer?
      && s.path.Some? && s.path.value in s.content
      && s.content[s.path.value] == Offer(s.attempts[a].supplied)
      && t == At(s, a, Claim(s.attempts[a].supplied))
    case Rename(a) =>
      && a in s.attempts && (s.attempts[a].Claim? || s.attempts[a].TakeAway?)
      && var p := s.attempts[a];
         if s.path.None? then t == At(s, a, Done(if p.Claim? then Rejected else Invalidated))
         else t == At(s, a, if p.Claim? then CheckClaim(p.verified, s.path.value) else DropTaken(s.path.value)).(path := None)
    case RenameFails(a) =>
      && a in s.attempts && (s.attempts[a].Claim? || s.attempts[a].TakeAway?)
      && t == At(s, a, Done(NotInvalidated))
    case ClaimHolds(a) =>
      && a in s.attempts && s.attempts[a].CheckClaim?
      && s.attempts[a].inode in s.content
      && s.content[s.attempts[a].inode] == Offer(s.attempts[a].verified)
      && t == At(s, a, Spend(s.attempts[a].verified, s.attempts[a].inode))
    case ClaimDiffers(a) =>
      // A read error counts as a different offer.
      && a in s.attempts && s.attempts[a].CheckClaim?
      && t == At(s, a, PutBack(s.attempts[a].inode))
    case Link(a) =>
      // A hard link is made only where nothing is; elsewhere the claim stays the only
      // name, and is dropped.
      && a in s.attempts && s.attempts[a].PutBack?
      && var inode := s.attempts[a].inode;
         if s.path.None?
         then t == At(s, a, DropClaim(inode)).(path := Some(inode))
         else t == At(s, a, DropOnly(inode))
    case LinkFails(a) =>
      // Refused for any other reason: no hard links here, no space, a failing disk.
      && a in s.attempts && s.attempts[a].PutBack?
      && t == At(s, a, DropOnly(s.attempts[a].inode))
    case Unlink(a) =>
      && a in s.attempts
      && match s.attempts[a]
         case Spend(_, inode) => t == At(s, a, Done(Redeemed(inode)))
         case DropClaim(_) => t == At(s, a, Done(Rejected))
         case DropOnly(inode) => t == At(s, a, Done(Rejected)).(dropped := s.dropped[inode := a])
         case DropTaken(_) => t == At(s, a, Done(Invalidated)).(removed := s.removed + {s.attempts[a].inode})
         case _ => false
  }

  ghost predicate Init(s: State) {
    && s.attempts == map[] && s.supplied == map[] && s.superseded == {} && s.removed == {} && s.dropped == map[]
    && s.content.Keys == AsSet(s.path)
    && s.published == if s.path.Some? then [s.path.value] else []
  }

  ghost predicate Run(states: seq<State>, events: seq<Event>) {
    && |states| == |events| + 1
    && Init(states[0])
    && forall i :: 0 <= i < |events| ==> Next(states[i], events[i], states[i + 1])
  }

  // The attempt whose step this is.
  predicate StepOf(e: Event, a: nat) {
    match e
    case Publish(_, _) => false
    case InstallerRemoves => false
    case _ => e.a == a
  }

  // What others do leaves an attempt where it is.
  lemma OthersKeepPhase(s: State, e: Event, t: State, a: nat)
    requires Next(s, e, t) && !StepOf(e, a)
    ensures a in s.attempts <==> a in t.attempts
    ensures a in s.attempts ==> t.attempts[a] == s.attempts[a]
  {
  }

  // ----- Safety -----------------------------------------------------------------

  // The attempt's claim is the only name of this generation.
  predicate Holds(p: Phase, inode: Inode) {
    match p
    case CheckClaim(_, i) => i == inode
    case Spend(_, i) => i == inode
    case PutBack(i) => i == inode
    case DropOnly(i) => i == inode
    case DropTaken(i) => i == inode
    case _ => false
  }

  // The attempt has used the generation up, or is past the point of doing so.
  predicate Redeems(p: Phase, inode: Inode) {
    p == Done(Redeemed(inode)) || (p.Spend? && p.inode == inode)
  }

  predicate HeldBy(s: State, a: nat, inode: Inode) {
    a in s.attempts && (Holds(s.attempts[a], inode) || Redeems(s.attempts[a], inode))
  }

  // A generation that has been replaced or deleted is gone for good.
  predicate Gone(s: State, inode: Inode) {
    inode in s.superseded || inode in s.removed || inode in s.dropped
  }

  ghost predicate Inv(s: State) {
    && (s.path.Some? ==> s.path.value in s.content && !Gone(s, s.path.value))
    && (forall i :: Gone(s, i) ==> i in s.content)
    && (forall a, i :: HeldBy(s, a, i) ==> i in s.content && s.path != Some(i) && !Gone(s, i))
    && (forall a, b, i :: HeldBy(s, a, i) && HeldBy(s, b, i) ==> a == b)
  }

  // A claim is made only by renaming the path away.
  lemma ClaimsComeFromRenames(s: State, e: Event, t: State, b: nat, i: Inode)
    requires Next(s, e, t) && HeldBy(t, b, i)
    ensures HeldBy(s, b, i) || (e == Rename(b) && s.path == Some(i) && t.path == None)
  {
  }

  lemma NextKeepsInv(s: State, e: Event, t: State)
    requires Inv(s) && Next(s, e, t)
    ensures Inv(t)
  {
    forall b, i | HeldBy(t, b, i)
      ensures i in t.content && t.path != Some(i) && !Gone(t, i)
      ensures forall c :: HeldBy(t, c, i) ==> b == c
    {
      ClaimsComeFromRenames(s, e, t, b, i);
      forall c | HeldBy(t, c, i)
        ensures b == c
      {
        ClaimsComeFromRenames(s, e, t, c, i);
      }
      if e.Link? {
        assert HeldBy(s, e.a, s.attempts[e.a].inode);
      } else if e.Unlink? && (s.attempts[e.a].DropTaken? || s.attempts[e.a].DropOnly?) {
        assert HeldBy(s, e.a, s.attempts[e.a].inode);
      }
    }
    if e.Link? {
      assert HeldBy(s, e.a, s.attempts[e.a].inode);
    } else if e.Unlink? && (s.attempts[e.a].DropTaken? || s.attempts[e.a].DropOnly?) {
      assert HeldBy(s, e.a, s.attempts[e.a].inode);
    }
  }

  // An attempt works with the token it was given, and redeems only a generation
  // whose bytes hold that token.
  predicate TokenOk(s: State, a: nat)
    requires a in s.attempts
  {
    var p := s.attempts[a];
    && (p.ReadOffer? ==> a in s.supplied && p.supplied == s.supplied[a])
    && (p.Claim? || p.CheckClaim? || p.Spend? ==> a in s.supplied && p.verified == s.supplied[a])
    && (p.Spend? ==> p.inode in s.content && s.content[p.inode] == Offer(s.supplied[a]))
    && (p.Done? && p.outcome.Redeemed? ==>
          && a in s.supplied && p.outcome.inode in s.content
          && s.content[p.outcome.inode] == Offer(s.supplied[a]))
  }

  ghost predicate TokensOk(s: State) {
    forall a :: a in s.attempts ==> TokenOk(s, a)
  }

  lemma AttemptsBegin(s: State, e: Event, t: State)
    requires Next(s, e, t)
    ensures forall a :: a in t.attempts ==> a in s.attempts || ((e.BeginRedeem? || e.BeginInvalidate?) && e.a == a)
  {
  }

  // What others do leaves an attempt's own part alone.
  lemma OthersKeepToken(s: State, e: Event, t: State, a: nat)
    requires Next(s, e, t) && !StepOf(e, a)
    ensures a in s.attempts <==> a in t.attempts
    ensures a in s.attempts ==> t.attempts[a] == s.attempts[a] && (TokenOk(s, a) ==> TokenOk(t, a))
  {
  }

  lemma NextKeepsOwnToken(s: State, e: Event, t: State, a: nat)
    requires Next(s, e, t) && StepOf(e, a) && a in t.attempts && (a in s.attempts ==> TokenOk(s, a))
    ensures TokenOk(t, a)
  {
  }

  lemma NextKeepsTokens(s: State, e: Event, t: State)
    requires TokensOk(s) && Next(s, e, t)
    ensures TokensOk(t)
  {
    hide Next, TokenOk;
    forall a | a in t.attempts
      ensures TokenOk(t, a)
    {
      if StepOf(e, a) {
        NextKeepsOwnToken(s, e, t, a);
      } else {
        OthersKeepToken(s, e, t, a);
      }
    }
  }

  ghost predicate Placed(s: State, i: Inode) {
    s.path == Some(i) || Gone(s, i) || exists a :: HeldBy(s, a, i)
  }

  // Every generation ever published is in exactly one place: at the path, with
  // one attempt (or redeemed by it), or gone.
  ghost predicate Accounted(s: State) {
    forall i :: i in s.content ==> Placed(s, i)
  }

  lemma OwnIsPlaced(s: State, e: Event, t: State, a: nat, i: Inode)
    requires Next(s, e, t) && StepOf(e, a) && HeldBy(s, a, i)
    ensures t.path == Some(i) || Gone(t, i) || HeldBy(t, a, i)
  {
  }

  lemma HeldIsPlaced(s: State, e: Event, t: State, a: nat, i: Inode)
    requires Next(s, e, t) && HeldBy(s, a, i)
    ensures t.path == Some(i) || Gone(t, i) || HeldBy(t, a, i)
  {
    hide Next, Gone;
    if StepOf(e, a) {
      OwnIsPlaced(s, e, t, a, i);
    } else {
      OthersKeepPhase(s, e, t, a);
    }
  }

  lemma FoundIsPlaced(s: State, e: Event, t: State, i: Inode)
    requires Next(s, e, t) && (s.path == Some(i) || Gone(s, i))
    ensures t.path == Some(i) || Gone(t, i) || (e.Rename? && HeldBy(t, e.a, i))
  {
  }

  lemma NextKeepsAccounts(s: State, e: Event, t: State)
    requires Accounted(s) && Next(s, e, t)
    ensures Accounted(t)
  {
    assert forall i :: i in t.content && i !in s.content ==> t.path == Some(i);
    hide Next, HeldBy, Gone;
    forall i | i in t.content
      ensures Placed(t, i)
    {
      if i in s.content {
        if s.path == Some(i) || Gone(s, i) {
          FoundIsPlaced(s, e, t, i);
        } else {
          var a :| HeldBy(s, a, i);
          HeldIsPlaced(s, e, t, a, i);
        }
      }
    }
  }

  // Each generation is published once, in order.
  ghost predicate Ordered(s: State) {
    NoDup(s.published) && forall i :: i in s.published <==> i in s.content
  }

  lemma NextKeepsOrder(s: State, e: Event, t: State)
    requires Ordered(s) && Next(s, e, t)
    ensures Ordered(t)
  {
  }

  lemma {:induction false} RunKeepsInv(states: seq<State>, events: seq<Event>, i: nat)
    requires Run(states, events) && i < |states|
    ensures Inv(states[i]) && TokensOk(states[i]) && Accounted(states[i]) && Ordered(states[i])
  {
    if i > 0 {
      RunKeepsInv(states, events, i - 1);
      var s, e, t := states[i - 1], events[i - 1], states[i];
      assert Next(s, e, t);
      NextKeepsInv(s, e, t);
      NextKeepsTokens(s, e, t);
      NextKeepsAccounts(s, e, t);
      NextKeepsOrder(s, e, t);
      hide *;
    }
  }

  lemma DoneStays(s: State, e: Event, t: State, a: nat)
    requires Next(s, e, t) && a in s.attempts && s.attempts[a].Done?
    ensures a in t.attempts && t.attempts[a] == s.attempts[a]
  {
  }

  lemma {:induction false} OutcomesStay(states: seq<State>, events: seq<Event>, i: nat, j: nat, a: nat)
    requires Run(states, events) && i <= j < |states|
    requires a in states[i].attempts && states[i].attempts[a].Done?
    ensures a in states[j].attempts && states[j].attempts[a] == states[i].attempts[a]
    decreases j
  {
    hide Next;
    if i < j {
      OutcomesStay(states, events, i, j - 1, a);
      DoneStays(states[j - 1], events[j - 1], states[j], a);
    }
  }

  // Over a whole run a generation is redeemed at most once, and only with its own
  // token, however many attempts and republications interleave.
  lemma RedeemedAtMostOnce(states: seq<State>, events: seq<Event>, i: nat, j: nat, a: nat, b: nat, inode: Inode)
    requires Run(states, events) && i < |states| && j < |states|
    requires a in states[i].attempts && states[i].attempts[a] == Done(Redeemed(inode))
    requires b in states[j].attempts && states[j].attempts[b] == Done(Redeemed(inode))
    ensures a == b
    ensures a in states[i].supplied && inode in states[i].content
    ensures states[i].content[inode] == Offer(states[i].supplied[a])
  {
    var k := if i < j then j else i;
    OutcomesStay(states, events, i, k, a);
    OutcomesStay(states, events, j, k, b);
    RunKeepsInv(states, events, k);
    RunKeepsInv(states, events, i);
    assert HeldBy(states[k], a, inode) && HeldBy(states[k], b, inode);
  }

  // A generation an attempt has redeemed is at the path in no state.
  lemma RedeemedIsNeverAtThePath(states: seq<State>, events: seq<Event>, i: nat, j: nat, a: nat, inode: Inode)
    requires Run(states, events) && i <= j < |states|
    requires a in states[i].attempts && states[i].attempts[a] == Done(Redeemed(inode))
    ensures states[j].path != Some(inode)
  {
    OutcomesStay(states, events, i, j, a);
    RunKeepsInv(states, events, j);
    assert HeldBy(states[j], a, inode);
  }

  // ----- Wrong claims ---------------------------------------------------------------

  // The claim's link did not restore it: something was at the path, or it was refused.
  predicate LinkRejected(s: State, e: Event, a: nat) {
    e == LinkFails(a) || (e == Link(a) && s.path.Some?)
  }

  predicate DroppedBy(s: State, a: nat, inode: Inode) {
    inode in s.dropped && s.dropped[inode] == a
  }

  // Where the attempt can be once its link was made, or rejected.
  predicate PastLink(s: State, a: nat, inode: Inode, rejected: bool) {
    && a in s.attempts
    && (s.attempts[a] == (if rejected then DropOnly(inode) else DropClaim(inode)) || s.attempts[a] == Done(Rejected))
    && (DroppedBy(s, a, inode) <==> rejected && s.attempts[a].Done?)
  }

  lemma OwnPastLink(s: State, e: Event, t: State, a: nat, inode: Inode, rejected: bool)
    requires Next(s, e, t) && StepOf(e, a) && PastLink(s, a, inode, rejected)
    ensures PastLink(t, a, inode, rejected)
  {
  }

  // A generation is dropped by whoever holds it, and stays so.
  lemma DropsStay(s: State, e: Event, t: State, a: nat, inode: Inode)
    requires Inv(s) && Next(s, e, t) && !StepOf(e, a)
    ensures DroppedBy(t, a, inode) <==> DroppedBy(s, a, inode)
  {
    if e.Unlink? && s.attempts[e.a].DropOnly? {
      assert HeldBy(s, e.a, s.attempts[e.a].inode);
    }
    assert DroppedBy(s, a, inode) ==> Gone(s, inode);
    hide HeldBy;
  }

  lemma NextPastLink(s: State, e: Event, t: State, a: nat, inode: Inode, rejected: bool)
    requires Inv(s) && Next(s, e, t) && PastLink(s, a, inode, rejected)
    ensures PastLink(t, a, inode, rejected)
  {
    hide Next, Inv, DroppedBy;
    if StepOf(e, a) {
      OwnPastLink(s, e, t, a, inode, rejected);
    } else {
      OthersKeepPhase(s, e, t, a);
      DropsStay(s, e, t, a, inode);
    }
  }

  lemma NextOfClaim(s: State, e: Event, t: State, a: nat, inode: Inode)
    requires Inv(s) && Next(s, e, t) && a in s.attempts && s.attempts[a] == PutBack(inode)
    ensures a in t.attempts
    ensures if e == Link(a) || e == LinkFails(a) then PastLink(t, a, inode, LinkRejected(s, e, a))
            else t.attempts[a] == PutBack(inode)
  {
    assert HeldBy(s, a, inode);
  }

  // A wrong claim waits, until its one link is made or rejected.
  lemma {:induction false} LinkOfClaim(states: seq<State>, events: seq<Event>, i: nat, j: nat, a: nat, inode: Inode)
    returns (k: nat)
    requires Run(states, events) && i <= j < |states|
    requires a in states[i].attempts && states[i].attempts[a] == PutBack(inode)
    ensures i <= k <= j && a in states[k].attempts && states[k].attempts[a] == PutBack(inode)
    ensures k < j ==> events[k] == Link(a) || events[k] == LinkFails(a)
    ensures k < j ==> PastLink(states[j], a, inode, LinkRejected(states[k], events[k], a))
    decreases j
  {
    hide Next, Inv, PastLink, LinkRejected, TokensOk, Accounted, Ordered;
    if i == j {
      k := j;
    } else {
      k := LinkOfClaim(states, events, i, j - 1, a, inode);
      var s, e, t := states[j - 1], events[j - 1], states[j];
      RunKeepsInv(states, events, j - 1);
      if k < j - 1 {
        NextPastLink(s, e, t, a, inode, LinkRejected(states[k], events[k], a));
      } else {
        NextOfClaim(s, e, t, a, inode);
        if e != Link(a) && e != LinkFails(a) { k := j; }
      }
    }
  }

  // A wrong claim is given back by one link, and dropped exactly when that link found
  // the path occupied or was refused; otherwise the path named it again.
  lemma WrongClaimIsPutBack(states: seq<State>, events: seq<Event>, i: nat, j: nat, a: nat, inode: Inode)
    returns (k: nat)
    requires Run(states, events) && i <= j < |states|
    requires a in states[i].attempts && states[i].attempts[a] == PutBack(inode)
    requires a in states[j].attempts && states[j].attempts[a].Done?
    ensures i <= k < j && (events[k] == Link(a) || events[k] == LinkFails(a))
    ensures DroppedBy(states[j], a, inode) <==> LinkRejected(states[k], events[k], a)
    ensures !LinkRejected(states[k], events[k], a) ==> states[k].path.None? && states[k + 1].path == Some(inode)
    ensures LinkRejected(states[k], events[k], a) ==> states[k + 1].path == states[k].path != Some(inode)
  {
    k := LinkOfClaim(states, events, i, j, a, inode);
    assert Next(states[k], events[k], states[k + 1]);
    RunKeepsInv(states, events, k);
    assert HeldBy(states[k], a, inode);
  }

  // The attempt has dropped the generation, or can do nothing else with it.
  predicate Drops(s: State, a: nat, inode: Inode) {
    DroppedBy(s, a, inode) || (a in s.attempts && s.attempts[a] == DropOnly(inode))
  }

  lemma DropsComeFromLinks(s: State, e: Event, t: State, a: nat, inode: Inode)
    requires Next(s, e, t) && Drops(t, a, inode)
    ensures Drops(s, a, inode) || (LinkRejected(s, e, a) && a in s.attempts && s.attempts[a] == PutBack(inode))
  {
  }

  // Nothing else is ever dropped.
  lemma {:induction false} DroppedWasRejected(states: seq<State>, events: seq<Event>, j: nat, a: nat, inode: Inode)
    returns (k: nat)
    requires Run(states, events) && j < |states| && Drops(states[j], a, inode)
    ensures k < j && a in states[k].attempts && states[k].attempts[a] == PutBack(inode)
    ensures LinkRejected(states[k], events[k], a)
    decreases j
  {
    assert Next(states[j - 1], events[j - 1], states[j]);
    DropsComeFromLinks(states[j - 1], events[j - 1], states[j], a, inode);
    hide Next;
    if Drops(states[j - 1], a, inode) {
      k := DroppedWasRejected(states, events, j - 1, a, inode);
    } else {
      k := j - 1;
    }
  }

  // ----- What goes right ----------------------------------------------------------------

  // Left alone, an attempt with the token of the offer at the path redeems that very offer,
  // and leaves nothing there.
  lemma RightTokenRedeems(s: State, a: nat, token: Token, inode: Inode) returns (path: seq<State>)
    requires a !in s.attempts && s.path == Some(inode) && inode in s.content && s.content[inode] == Offer(token)
    ensures |path| == 5
    ensures Next(s, BeginRedeem(a, token), path[0])
    ensures Next(path[0], Accept(a), path[1])
    ensures Next(path[1], Rename(a), path[2])
    ensures Next(path[2], ClaimHolds(a), path[3])
    ensures Next(path[3], Unlink(a), path[4])
    ensures path[4].path.None? && path[4].attempts == s.attempts[a := Done(Redeemed(inode))]
  {
    var s1 := At(s, a, ReadOffer(token)).(supplied := s.supplied[a := token]);
    var s2 := At(s1, a, Claim(token));
    var s3 := At(s2, a, CheckClaim(token, inode)).(path := None);
    var s4 := At(s3, a, Spend(token, inode));
    path := [s1, s2, s3, s4, At(s4, a, Done(Redeemed(inode)))];
  }

  // An attempt is let past the check only with the token of the offer there, and otherwise can
  // only be refused.
  lemma OnlyTheTokenIsAccepted(s: State, a: nat, e: Event, t: State)
    requires Next(s, e, t) && StepOf(e, a) && a in s.attempts && s.attempts[a].ReadOffer?
    ensures a in t.attempts && (t.attempts[a] == Done(Rejected) || t.attempts[a] == Claim(s.attempts[a].supplied))
    ensures t.attempts[a].Claim? ==>
      s.path.Some? && s.path.value in s.content && s.content[s.path.value] == Offer(s.attempts[a].supplied)
    ensures t.path == s.path && t.content == s.content
  {
  }

  // Left alone, taking the offer away takes it, whatever it is, and is done at once where there
  // is none.
  lemma OfferIsTakenAway(s: State, a: nat) returns (path: seq<State>)
    requires a !in s.attempts
    ensures |path| == 3
    ensures Next(s, BeginInvalidate(a), path[0])
    ensures Next(path[0], Rename(a), path[1])
    ensures if s.path.None? then path[2] == path[1] else Next(path[1], Unlink(a), path[2])
    ensures path[2].path.None? && path[2].attempts == s.attempts[a := Done(Invalidated)]
    ensures path[2].removed == s.removed + if s.path.Some? then {s.path.value} else {}
  {
    var s1 := At(s, a, TakeAway);
    if s.path.None? {
      var s2 := At(s1, a, Done(Invalidated));
      path := [s1, s2, s2];
    } else {
      var s2 := At(s1, a, DropTaken(s.path.value)).(path := None);
      path := [s1, s2, At(s2, a, Done(Invalidated)).(removed := s.removed + {s.path.value})];
    }
  }

  // ----- What goes wrong ------------------------------------------------------------

  lemma Extend(states: seq<State>, events: seq<Event>, e: Event, t: State)
    returns (more: seq<State>, most: seq<Event>)
    requires Run(states, events) && Next(states[|states| - 1], e, t)
    ensures Run(more, most) && more == states + [t] && most == events + [e]
  {
    hide Next;
    more, most := states + [t], events + [e];
    forall i | 0 <= i < |most|
      ensures Next(more[i], most[i], more[i + 1])
    {
      if i < |events| {
        assert Next(states[i], events[i], states[i + 1]);
      }
    }
  }

  // One attempt has verified the first offer, and holds the second.
  ghost function HoldsSecond(): State {
    State(map[0 := Offer(7), 1 := Offer(8)], None, map[0 := CheckClaim(7, 1)], map[0 := 7], [0, 1], {0}, {}, map[])
  }

  lemma SecondIsHeld() returns (states: seq<State>, events: seq<Event>)
    ensures Run(states, events) && states[|states| - 1] == HoldsSecond()
    ensures forall i :: 0 <= i < |events| ==> !events[i].LinkFails?
  {
    var s0 := State(map[0 := Offer(7)], Some(0), map[], map[], [0], {}, {}, map[]);
    var s1 := At(s0, 0, ReadOffer(7)).(supplied := map[0 := 7]);
    var s2 := At(s1, 0, Claim(7));
    var s3 := s2.(content := s2.content[1 := Offer(8)], path := Some(1), published := [0, 1], superseded := {0});
    states, events := [s0], [];
    states, events := Extend(states, events, BeginRedeem(0, 7), s1);
    states, events := Extend(states, events, Accept(0), s2);
    states, events := Extend(states, events, Publish(1, Offer(8)), s3);
    states, events := Extend(states, events, Rename(0), HoldsSecond());
  }

  // Where no hard link can be made, a wrong claim costs the installer its newest offer:
  // the path is left empty though nothing has taken the offer's place.
  lemma RefusedLinkLosesTheNewest() returns (states: seq<State>, events: seq<Event>)
    ensures Run(states, events)
    ensures var last := states[|states| - 1];
      && last.path.None? && last.published == [0, 1] && 1 in last.dropped
  {
    var s5 := At(HoldsSecond(), 0, PutBack(1));
    var s6 := At(s5, 0, DropOnly(1));
    var s7 := At(s6, 0, Done(Rejected)).(dropped := map[1 := 0]);
    states, events := SecondIsHeld();
    states, events := Extend(states, events, ClaimDiffers(0), s5);
    states, events := Extend(states, events, LinkFails(0), s6);
    states, events := Extend(states, events, Unlink(0), s7);
  }

  // Another attempt has verified a third offer, and holds the fourth.
  ghost function HoldsFourth(): State {
    State(map[0 := Offer(7), 1 := Offer(8), 2 := Offer(9), 3 := Offer(10)], None,
          map[0 := CheckClaim(7, 1), 1 := CheckClaim(9, 3)], map[0 := 7, 1 := 9], [0, 1, 2, 3], {0, 2}, {}, map[])
  }

  lemma FourthIsHeld() returns (states: seq<State>, events: seq<Event>)
    ensures Run(states, events) && states[|states| - 1] == HoldsFourth()
    ensures forall i :: 0 <= i < |events| ==> !events[i].LinkFails?
  {
    var s0 := HoldsSecond();
    var s1 := s0.(content := s0.content[2 := Offer(9)], path := Some(2), published := [0, 1, 2]);
    var s2 := At(s1, 1, ReadOffer(9)).(supplied := map[0 := 7, 1 := 9]);
    states, events := SecondIsHeld();
    states, events := Extend(states, events, Publish(2, Offer(9)), s1);
    states, events := Extend(states, events, BeginRedeem(1, 9), s2);
    states, events := FourthIsTaken(states, events, s2);
  }

  lemma FourthIsTaken(before: seq<State>, so: seq<Event>, s2: State) returns (states: seq<State>, events: seq<Event>)
    requires Run(before, so) && before[|before| - 1] == s2
    requires forall i :: 0 <= i < |so| ==> !so[i].LinkFails?
    requires s2 == HoldsSecond().(content := HoldsSecond().content[2 := Offer(9)], path := Some(2), published := [0, 1, 2],
                                  attempts := HoldsSecond().attempts[1 := ReadOffer(9)], supplied := map[0 := 7, 1 := 9])
    ensures Run(states, events) && states[|states| - 1] == HoldsFourth()
    ensures forall i :: 0 <= i < |events| ==> !events[i].LinkFails?
  {
    var s3 := At(s2, 1, Claim(9));
    var s4 := s3.(content := s3.content[3 := Offer(10)], path := Some(3), published := [0, 1, 2, 3], superseded := {0, 2});
    states, events := Extend(before, so, Accept(1), s3);
    states, events := Extend(states, events, Publish(3, Offer(10)), s4);
    states, events := Extend(states, events, Rename(1), HoldsFourth());
  }

  // Were attempts to run at once, one could put an older offer back in time for another
  // to drop a newer one.
  lemma TwoAttemptsCouldDropTheNewest() returns (states: seq<State>, events: seq<Event>)
    ensures Run(states, events)
    ensures forall i :: 0 <= i < |events| ==> !events[i].LinkFails?
    ensures var last := states[|states| - 1];
      && last.path == Some(1) && last.published == [0, 1, 2, 3] && 3 in last.dropped
  {
    var s1 := At(HoldsFourth(), 0, PutBack(1));
    var s2 := At(s1, 1, PutBack(3));
    var s3 := At(s2, 0, DropClaim(1)).(path := Some(1));
    var s4 := At(s3, 1, DropOnly(3));
    var s5 := At(s4, 1, Done(Rejected)).(dropped := map[3 := 1]);
    states, events := FourthIsHeld();
    states, events := Extend(states, events, ClaimDiffers(0), s1);
    states, events := Extend(states, events, ClaimDiffers(1), s2);
    states, events := Extend(states, events, Link(0), s3);
    states, events := Extend(states, events, Link(1), s4);
    states, events := Extend(states, events, Unlink(1), s5);
  }
}
