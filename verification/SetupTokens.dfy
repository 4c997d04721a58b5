/**
 Setup tokens: the credential behind a Burrow's QR. Minted, looked at, spent, and
 given back by the request that spent it when that request fails.
 */
module SetupTokens {
  import opened Common

  const MAX_TOKENS_PER_BURROW: nat := 8
  const SETUP_TOKEN_TTL_MS: int := 300_000

  type Token = nat
  type BurrowId = nat

  // One row of the map: the token, the Burrow that minted it, when it dies.
  datatype Entry = Entry(token: Token, burrowId: BurrowId, expiresAt: int)

  // The map, in insertion order.
  type Tokens = seq<Entry>

  ghost predicate UniqueTokens(ts: Tokens) {
    forall i, j :: 0 <= i < j < |ts| ==> ts[i].token != ts[j].token
  }

  ghost predicate Has(ts: Tokens, token: Token) {
    exists e :: e in ts && e.token == token
  }

  function Find(ts: Tokens, token: Token): (r: Option<Entry>)
    ensures r.Some? ==> r.value in ts && r.value.token == token
    ensures r.None? ==> forall e :: e in ts ==> e.token != token
  {
    if ts == [] then None
    else if ts[|ts| - 1].token == token then Some(ts[|ts| - 1])
    else Find(ts[..|ts| - 1], token)
  }

  // ----- Specification ------------------------------------------------------------

  function Delete(ts: Tokens, token: Token): Tokens {
    Filter((e: Entry) => e.token != token, ts)
  }

  function PruneExpired(ts: Tokens, now: int): Tokens {
    Filter((e: Entry) => now < e.expiresAt, ts)
  }

  function Own(ts: Tokens, burrowId: BurrowId): Tokens {
    Filter((e: Entry) => e.burrowId == burrowId, ts)
  }

  // The Burrow's rows, soonest to expire first.
  function ByAge(ts: Tokens, burrowId: BurrowId): Tokens {
    SortBy((e: Entry) => e.expiresAt, Own(ts, burrowId))
  }

  function Victims(ts: Tokens, burrowId: BurrowId, limit: nat): Tokens {
    var own := ByAge(ts, burrowId);
    if |own| <= limit then [] else own[..|own| - limit]
  }

  function Trim(ts: Tokens, burrowId: BurrowId, limit: nat): Tokens {
    var gone := Victims(ts, burrowId, limit);
    Filter((e: Entry) => e !in gone, ts)
  }

  function Issue(ts: Tokens, burrowId: BurrowId, token: Token, now: int, mintNow: int): Tokens {
    Trim(PruneExpired(ts, now), burrowId, MAX_TOKENS_PER_BURROW - 1)
    + [Entry(token, burrowId, mintNow + SETUP_TOKEN_TTL_MS)]
  }

  function Peek(ts: Tokens, token: Token, now: int): (Tokens, Option<Entry>) {
    var entry := Find(ts, token);
    if entry.None? then (ts, None)
    else if now >= entry.value.expiresAt then (Delete(ts, token), None)
    else (ts, entry)
  }

  function Consume(ts: Tokens, token: Token, now: int): (Tokens, Option<Entry>) {
    var entry := Find(ts, token);
    if entry.None? then (ts, None)
    else (Delete(ts, token), if now < entry.value.expiresAt then entry else None)
  }

  function Restore(ts: Tokens, entry: Entry, now: int, pruneNow: int): Tokens {
    if now >= entry.expiresAt then ts
    else
      Trim(PruneExpired(Delete(ts, entry.token), pruneNow), entry.burrowId, MAX_TOKENS_PER_BURROW - 1)
      + [entry]
  }

  // ----- What trimming keeps ------------------------------------------------------

  lemma UniqueIsNoDup(ts: Tokens)
    requires UniqueTokens(ts)
    ensures NoDup(ts)
  {
  }

  lemma {:induction false} FilterUnique(f: Entry -> bool, ts: Tokens)
    requires UniqueTokens(ts)
    ensures UniqueTokens(Filter(f, ts))
  {
    if ts != [] {
      var front, x := ts[..|ts| - 1], ts[|ts| - 1];
      FilterUnique(f, front);
      FilterMembers(f, front);
      assert forall e :: e in front ==> e.token != x.token;
    }
  }

  lemma VictimsAreOwn(ts: Tokens, burrowId: BurrowId, limit: nat)
    requires UniqueTokens(ts)
    ensures var gone := Victims(ts, burrowId, limit);
      && NoDup(gone)
      && (forall e :: e in gone ==> e in ts && e.burrowId == burrowId)
      && |gone| == (if |Own(ts, burrowId)| <= limit then 0 else |Own(ts, burrowId)| - limit)
  {
    UniqueIsNoDup(ts);
    FilterNoDup((e: Entry) => e.burrowId == burrowId, ts);
    FilterMembers((e: Entry) => e.burrowId == burrowId, ts);
    SortMembers((e: Entry) => e.expiresAt, Own(ts, burrowId));
    SortNoDup((e: Entry) => e.expiresAt, Own(ts, burrowId));
    var own, gone := ByAge(ts, burrowId), Victims(ts, burrowId, limit);
    forall e | e in gone
      ensures e in Own(ts, burrowId)
    {
      var k :| 0 <= k < |gone| && gone[k] == e;
      assert own[k] == e;
    }
  }

  // Trimming one Burrow leaves it min(its rows, limit) rows, the ones that expire
  // last, and touches nobody else's.
  lemma TrimKeeps(ts: Tokens, burrowId: BurrowId, limit: nat)
    requires UniqueTokens(ts)
    ensures var r := Trim(ts, burrowId, limit);
      && UniqueTokens(r)
      && (forall e :: e in r ==> e in ts)
      && (forall e :: e in ts && e.burrowId != burrowId ==> e in r)
      && (forall b :: b != burrowId ==> Own(r, b) == Own(ts, b))
      && |Own(r, burrowId)| == (if |Own(ts, burrowId)| <= limit then |Own(ts, burrowId)| else limit)
      && (forall kept, gone :: kept in Own(r, burrowId) && gone in ts && gone !in r ==>
            gone.expiresAt <= kept.expiresAt)
  {
    var gone := Victims(ts, burrowId, limit);
    var f := (e: Entry) => e !in gone;
    var r := Trim(ts, burrowId, limit);
    VictimsAreOwn(ts, burrowId, limit);
    FilterUnique(f, ts);
    FilterMembers(f, ts);
    OthersUntouched(ts, burrowId, limit);
    OwnLength(ts, burrowId, limit);
    forall kept, x | kept in Own(r, burrowId) && x in ts && x !in r
      ensures x.expiresAt <= kept.expiresAt
    {
      OldestGoFirst(ts, burrowId, limit, kept, x);
    }
  }

  lemma OthersUntouched(ts: Tokens, burrowId: BurrowId, limit: nat)
    requires UniqueTokens(ts)
    ensures forall b :: b != burrowId ==> Own(Trim(ts, burrowId, limit), b) == Own(ts, b)
  {
    var gone := Victims(ts, burrowId, limit);
    VictimsAreOwn(ts, burrowId, limit);
    forall b | b != burrowId
      ensures Own(Trim(ts, burrowId, limit), b) == Own(ts, b)
    {
      FilterFilter((e: Entry) => e.burrowId == b, (e: Entry) => e !in gone, ts);
      FilterMembers((e: Entry) => e.burrowId == b, ts);
      FilterAll((e: Entry) => e !in gone, Own(ts, b));
    }
  }

  lemma OwnLength(ts: Tokens, burrowId: BurrowId, limit: nat)
    requires UniqueTokens(ts)
    ensures |Own(Trim(ts, burrowId, limit), burrowId)| == if |Own(ts, burrowId)| <= limit then |Own(ts, burrowId)| else limit
  {
    var gone := Victims(ts, burrowId, limit);
    var mine := (e: Entry) => e.burrowId == burrowId;
    VictimsAreOwn(ts, burrowId, limit);
    FilterFilter(mine, (e: Entry) => e !in gone, ts);
    UniqueIsNoDup(ts);
    FilterNoDup(mine, ts);
    FilterMembers(mine, ts);
    RemovalLength(Own(ts, burrowId), gone);
  }

  // In a sorted sequence nothing left of a cut exceeds anything absent from there.
  lemma CutOfSorted<T(!new)>(key: T -> int, s: seq<T>, n: nat, kept: T, gone: T)
    requires SortedBy(key, s) && n <= |s|
    requires gone in s[..n] && kept in s && kept !in s[..n]
    ensures key(gone) <= key(kept)
  {
    forall k | 0 <= k < n
      ensures s[k] != kept
    {
      assert s[..n][k] == s[k];
    }
    var i :| 0 <= i < n && s[..n][i] == gone;
    var j :| 0 <= j < |s| && s[j] == kept;
  }

  lemma OldestGoFirst(ts: Tokens, burrowId: BurrowId, limit: nat, kept: Entry, gone: Entry)
    requires UniqueTokens(ts)
    requires kept in Own(Trim(ts, burrowId, limit), burrowId) && gone in ts && gone !in Trim(ts, burrowId, limit)
    ensures gone.expiresAt <= kept.expiresAt
  {
    var victims := Victims(ts, burrowId, limit);
    var mine := (e: Entry) => e.burrowId == burrowId;
    var key := (e: Entry) => e.expiresAt;
    var own := ByAge(ts, burrowId);
    FilterMembers((e: Entry) => e !in victims, ts);
    FilterMembers(mine, Trim(ts, burrowId, limit));
    assert gone in victims;
    assert own == SortBy(key, Own(ts, burrowId));
    assert kept in own && SortedBy(key, own) by {
      FilterMembers(mine, ts);
      SortSorts(key, Own(ts, burrowId));
      SortMembers(key, Own(ts, burrowId));
    }
    assert kept !in victims;
    hide Filter, SortBy, Trim, Own, ByAge;
    CutOfSorted(key, own, |own| - limit, kept, gone);
  }

  // ----- Each operation -------------------------------------------------------------

  ghost predicate Ok(ts: Tokens) {
    UniqueTokens(ts) && forall b :: |Own(ts, b)| <= MAX_TOKENS_PER_BURROW
  }

  lemma FilterOk(f: Entry -> bool, ts: Tokens)
    requires Ok(ts)
    ensures Ok(Filter(f, ts))
    ensures forall e :: e in Filter(f, ts) <==> e in ts && f(e)
  {
    FilterUnique(f, ts);
    FilterMembers(f, ts);
    forall b
      ensures |Own(Filter(f, ts), b)| <= |Own(ts, b)|
    {
      FilterFilter((e: Entry) => e.burrowId == b, f, ts);
      FilterMembers(f, Own(ts, b));
    }
  }

  lemma AppendOk(ts: Tokens, e: Entry)
    requires Ok(ts) && |Own(ts, e.burrowId)| < MAX_TOKENS_PER_BURROW && !Has(ts, e.token)
    ensures Ok(ts + [e])
  {
    forall b
      ensures |Own(ts + [e], b)| <= MAX_TOKENS_PER_BURROW
    {
      FilterAppend((x: Entry) => x.burrowId == b, ts, e);
      assert Own(ts + [e], b) == Own(ts, b) + if e.burrowId == b then [e] else [];
    }
  }

  // Trim to make room, then add: what minting and restoring share.
  lemma AddKeeps(ts: Tokens, e: Entry)
    requires Ok(ts) && !Has(ts, e.token)
    ensures var r := Trim(ts, e.burrowId, MAX_TOKENS_PER_BURROW - 1) + [e];
      && Ok(r)
      && (forall x :: x in r ==> x in ts || x == e)
      && (forall x :: x in ts && x.burrowId != e.burrowId ==> x in r)
  {
    TrimKeeps(ts, e.burrowId, MAX_TOKENS_PER_BURROW - 1);
    FilterOk((x: Entry) => x !in Victims(ts, e.burrowId, MAX_TOKENS_PER_BURROW - 1), ts);
    AppendOk(Trim(ts, e.burrowId, MAX_TOKENS_PER_BURROW - 1), e);
  }

  // A mint keeps both caps, holds its own token, changes no row, and costs another
  // Burrow nothing that is still alive.
  lemma IssueKeeps(ts: Tokens, burrowId: BurrowId, token: Token, now: int, mintNow: int)
    requires Ok(ts) && !Has(ts, token)
    ensures var e := Entry(token, burrowId, mintNow + SETUP_TOKEN_TTL_MS);
      var r := Issue(ts, burrowId, token, now, mintNow);
      && Ok(r) && e in r
      && (forall x :: x in r ==> x in ts || x == e)
      && (forall x :: x in ts && x.burrowId != burrowId && now < x.expiresAt ==> x in r)
      && (forall x :: x in ts && x in r ==> now < x.expiresAt)
  {
    FilterOk((e: Entry) => now < e.expiresAt, ts);
    var e := Entry(token, burrowId, mintNow + SETUP_TOKEN_TTL_MS);
    AddKeeps(PruneExpired(ts, now), e);
    assert e !in ts;
  }

  // Giving a token back keeps both caps and the token's own expiry.
  lemma RestoreKeeps(ts: Tokens, entry: Entry, now: int, pruneNow: int)
    requires Ok(ts) && !Has(ts, entry.token)
    ensures var r := Restore(ts, entry, now, pruneNow);
      && Ok(r)
      && (entry in r <==> now < entry.expiresAt)
      && (forall x :: x in r ==> x in ts || x == entry)
      && (forall x :: x in ts && x.burrowId != entry.burrowId && pruneNow < x.expiresAt ==> x in r)
  {
    if now < entry.expiresAt {
      FilterAll((e: Entry) => e.token != entry.token, ts);
      FilterOk((e: Entry) => pruneNow < e.expiresAt, ts);
      AddKeeps(PruneExpired(ts, pruneNow), entry);
    }
  }

  // Spending removes the token whatever it answers, and answers it only alive.
  lemma ConsumeKeeps(ts: Tokens, token: Token, now: int)
    requires Ok(ts)
    ensures var (r, entry) := Consume(ts, token, now);
      && Ok(r) && !Has(r, token)
      && (forall x :: x in r <==> x in ts && x.token != token)
      && (entry.Some? <==> exists x :: x in ts && x.token == token && now < x.expiresAt)
      && (entry.Some? ==> entry.value in ts && entry.value.token == token && now < entry.value.expiresAt)
  {
    FilterOk((e: Entry) => e.token != token, ts);
  }

  // Looking spends nothing that is alive.
  lemma PeekKeeps(ts: Tokens, token: Token, now: int)
    requires Ok(ts)
    ensures var (r, entry) := Peek(ts, token, now);
      && Ok(r)
      && (forall x :: x in r ==> x in ts)
      && (forall x :: x in ts && now < x.expiresAt ==> x in r)
      && (entry.Some? <==> exists x :: x in ts && x.token == token && now < x.expiresAt)
      && (entry.Some? ==> r == ts && entry.value in ts && entry.value.token == token)
  {
    FilterOk((e: Entry) => e.token != token, ts);
    var found := Find(ts, token);
    if found.Some? {
      forall x | x in ts && x.token == token
        ensures x == found.value
      {
      }
    }
  }

  // ----- Exactly which rows a mint costs its Burrow -------------------------------------

  // It expires later, or as late and was put in the map later.
  ghost predicate Outlives(ts: Tokens, y: Entry, x: Entry) {
    x.expiresAt < y.expiresAt || (x.expiresAt == y.expiresAt && Before(ts, x, y))
  }

  // The Burrow's rows that outlive one of them.
  ghost function Outliving(ts: Tokens, burrowId: BurrowId, x: Entry): set<Entry> {
    set y | y in ts && y.burrowId == burrowId && Outlives(ts, y, x)
  }

  lemma LaterOutlives(ts: Tokens, burrowId: BurrowId, j: nat, k: nat)
    requires UniqueTokens(ts) && j < k < |ByAge(ts, burrowId)|
    ensures var own := ByAge(ts, burrowId); Outlives(ts, own[k], own[j]) && !Outlives(ts, own[j], own[k])
  {
    var own, mine, key := ByAge(ts, burrowId), (e: Entry) => e.burrowId == burrowId, (e: Entry) => e.expiresAt;
    assert own == SortBy(key, Filter(mine, ts));
    SortIsStable(key, Filter(mine, ts));
    UniqueIsNoDup(ts);
    hide Filter, SortBy, ByAge, UniqueTokens, Before;
    assert Stably(key, Filter(mine, ts), own[j], own[k]);
    if key(own[j]) == key(own[k]) {
      FilterBefore(mine, ts, own[j], own[k]);
      BeforeOneWay(ts, own[j], own[k]);
    }
  }

  lemma OutlivingIsRest(ts: Tokens, burrowId: BurrowId, k: nat)
    requires UniqueTokens(ts) && k < |ByAge(ts, burrowId)|
    ensures var own := ByAge(ts, burrowId); Outliving(ts, burrowId, own[k]) == Elements(own[k + 1..])
  {
    hide ByAge, UniqueTokens, Outlives;
    var own := ByAge(ts, burrowId);
    ByAgeLists(ts, burrowId);
    UniqueIsNoDup(ts);
    forall y | y in own[k + 1..]
      ensures y in Outliving(ts, burrowId, own[k])
    {
      var j :| k < j < |own| && own[j] == y;
      LaterOutlives(ts, burrowId, k, j);
    }
    forall y | y in Outliving(ts, burrowId, own[k])
      ensures y in own[k + 1..]
    {
      var j :| 0 <= j < |own| && own[j] == y;
      if j == k {
        NotItself(ts, y);
      } else if j < k {
        LaterOutlives(ts, burrowId, j, k);
      }
    }
  }

  lemma NotItself(ts: Tokens, y: Entry)
    requires NoDup(ts)
    ensures !Outlives(ts, y, y)
  {
  }

  lemma BeforeItself(ts: Tokens, y: Entry)
    requires NoDup(ts)
    ensures !Before(ts, y, y)
  {
  }

  // Trimming takes a Burrow's row exactly when at least the limit outlive it.
  lemma TrimSpares(ts: Tokens, burrowId: BurrowId, limit: nat, x: Entry)
    requires UniqueTokens(ts) && x in ts
    ensures x in Victims(ts, burrowId, limit) <==> x.burrowId == burrowId && |Outliving(ts, burrowId, x)| >= limit
  {
    var own, gone := ByAge(ts, burrowId), Victims(ts, burrowId, limit);
    VictimsAreOwn(ts, burrowId, limit);
    if x.burrowId == burrowId {
      ByAgeLists(ts, burrowId);
      assert x in own;
      var k :| 0 <= k < |own| && own[k] == x;
      OutlivingIsRest(ts, burrowId, k);
      NoDupSize(own[k + 1..]);
      assert |Outliving(ts, burrowId, x)| == |own| - k - 1;
      if k < |gone| { assert gone[k] == x; }
    }
  }

  lemma ByAgeLists(ts: Tokens, burrowId: BurrowId)
    requires UniqueTokens(ts)
    ensures NoDup(ByAge(ts, burrowId)) && forall e :: e in ByAge(ts, burrowId) <==> e in ts && e.burrowId == burrowId
  {
    UniqueIsNoDup(ts);
    FilterNoDup((e: Entry) => e.burrowId == burrowId, ts);
    FilterMembers((e: Entry) => e.burrowId == burrowId, ts);
    SortMembers((e: Entry) => e.expiresAt, Own(ts, burrowId));
    SortNoDup((e: Entry) => e.expiresAt, Own(ts, burrowId));
  }

  // A row that another's mint, or giving back, at `now` leaves: it is alive, and another
  // Burrow's or outlived by fewer than seven of its own.
  ghost predicate Left(ts: Tokens, burrowId: BurrowId, now: int, x: Entry) {
    now < x.expiresAt && (x.burrowId != burrowId || |Outliving(ts, burrowId, x)| < 7)
  }

  lemma OutlivingIsAlive(ts: Tokens, burrowId: BurrowId, now: int, x: Entry)
    requires UniqueTokens(ts) && x in ts && now < x.expiresAt
    ensures Outliving(PruneExpired(ts, now), burrowId, x) == Outliving(ts, burrowId, x)
  {
    var alive := (e: Entry) => now < e.expiresAt;
    var r := PruneExpired(ts, now);
    FilterMembers(alive, ts);
    FilterUnique(alive, ts);
    UniqueIsNoDup(ts);
    UniqueIsNoDup(r);
    hide Filter, UniqueTokens, Before;
    forall y | y in ts && y in r
      ensures Before(r, x, y) == Before(ts, x, y)
    {
      assert r == Filter(alive, ts) by { PruneIs(ts, now); }
      if Before(r, x, y) {
        FilterBefore(alive, ts, x, y);
      } else if Before(ts, x, y) {
        BeforeOneWay(ts, x, y);
        if x == y { BeforeItself(ts, x); }
        EitherBefore(r, x, y);
        FilterBefore(alive, ts, y, x);
      }
    }
  }

  lemma PruneIs(ts: Tokens, now: int)
    ensures PruneExpired(ts, now) == Filter((e: Entry) => now < e.expiresAt, ts)
  {
  }

  lemma EitherBefore(ts: Tokens, x: Entry, y: Entry)
    requires x in ts && y in ts && x != y
    ensures Before(ts, x, y) || Before(ts, y, x)
  {
    var i :| 0 <= i < |ts| && ts[i] == x;
    var j :| 0 <= j < |ts| && ts[j] == y;
    if i < j {
      assert Before(ts, x, y);
    } else {
      assert Before(ts, y, x);
    }
  }

  lemma PruneAndTrim(ts: Tokens, burrowId: BurrowId, now: int)
    requires UniqueTokens(ts)
    ensures Trim(PruneExpired(ts, now), burrowId, 7) == Filter((x: Entry) => Left(ts, burrowId, now, x), ts)
  {
    hide Filter, UniqueTokens, Victims, Outliving, Trim, PruneExpired;
    var alive := (e: Entry) => now < e.expiresAt;
    var r := Filter(alive, ts);
    assert r == PruneExpired(ts, now) by { PruneIs(ts, now); }
    var stays, left := (x: Entry) => x !in Victims(r, burrowId, 7), (x: Entry) => Left(ts, burrowId, now, x);
    FilterMembers(alive, ts);
    FilterUnique(alive, ts);
    forall x | x in ts
      ensures left(x) == (stays(x) && alive(x))
    {
      if alive(x) {
        TrimSpares(r, burrowId, 7, x);
        OutlivingIsAlive(ts, burrowId, now, x);
      }
    }
    FilterTwice(stays, alive, left, ts);
    TrimIs(r, burrowId, 7, stays);
  }

  lemma TrimIs(ts: Tokens, burrowId: BurrowId, limit: nat, stays: Entry -> bool)
    requires forall x :: x in ts ==> stays(x) == (x !in Victims(ts, burrowId, limit))
    ensures Trim(ts, burrowId, limit) == Filter(stays, ts)
  {
    hide Victims;
    var gone := Victims(ts, burrowId, limit);
    FilterAll((x: Entry) => true, Trim(ts, burrowId, limit));
    FilterTwice((x: Entry) => true, (x: Entry) => x !in gone, stays, ts);
  }

  // A mint leaves, in their order, exactly the live rows that are another Burrow's or are
  // outlived by fewer than seven of its own, and adds its token as the last, for 300 seconds.
  lemma IssueLeaves(ts: Tokens, burrowId: BurrowId, token: Token, now: int, mintNow: int)
    requires UniqueTokens(ts)
    ensures Issue(ts, burrowId, token, now, mintNow)
         == Filter((x: Entry) => Left(ts, burrowId, now, x), ts) + [Entry(token, burrowId, mintNow + 300_000)]
  {
    PruneAndTrim(ts, burrowId, now);
  }

  // Giving a token back leaves just the same, and adds it as it was; once it is dead it
  // changes nothing.
  lemma RestoreLeaves(ts: Tokens, entry: Entry, now: int, pruneNow: int)
    requires UniqueTokens(ts) && !Has(ts, entry.token)
    ensures Restore(ts, entry, now, pruneNow)
         == if entry.expiresAt <= now then ts
            else Filter((x: Entry) => Left(ts, entry.burrowId, pruneNow, x), ts) + [entry]
  {
    FilterAll((e: Entry) => e.token != entry.token, ts);
    PruneAndTrim(ts, entry.burrowId, pruneNow);
  }

  // ----- Conservation over every interleaving ----------------------------------------

  // The map, the requests that have spent a token and not finished, and the tokens
  // a passkey was registered with. `issued` remembers every token ever minted.
  datatype World = World(tokens: Tokens, held: map<nat, Entry>, registered: seq<Token>, issued: map<Token, Entry>)

  datatype Event =
    | Mint(burrowId: BurrowId, token: Token, now: int, mintNow: int)
    | Begin(token: Token, now: int)
    | Spend(request: nat, token: Token, now: int)
    | MinterRevoked(request: nat)
    | GateThrows(request: nat, now: int, pruneNow: int)
    | Retired(request: nat)
    | FinishFails(request: nat, now: int, pruneNow: int)
    | Registers(request: nat)

  predicate Allowed(w: World, e: Event) {
    match e
    case Mint(_, token, _, _) => token !in w.issued
    case Begin(_, _) => true
    case Spend(request, _, _) => request !in w.held
    case _ => e.request in w.held
  }

  function Step(w: World, e: Event): World
    requires Allowed(w, e)
  {
    match e
    case Mint(b, token, now, mintNow) =>
      w.(tokens := Issue(w.tokens, b, token, now, mintNow),
         issued := w.issued[token := Entry(token, b, mintNow + SETUP_TOKEN_TTL_MS)])
    case Begin(token, now) => w.(tokens := Peek(w.tokens, token, now).0)
    case Spend(request, token, now) =>
      var (ts, entry) := Consume(w.tokens, token, now);
      w.(tokens := ts, held := if entry.Some? then w.held[request := entry.value] else w.held)
    case GateThrows(request, now, pruneNow) => GiveBack(w, request, now, pruneNow)
    case FinishFails(request, now, pruneNow) => GiveBack(w, request, now, pruneNow)
    case Registers(request) =>
      w.(held := w.held - {request}, registered := w.registered + [w.held[request].token])
    case MinterRevoked(request) => w.(held := w.held - {request})
    case Retired(request) => w.(held := w.held - {request})
  }

  function GiveBack(w: World, request: nat, now: int, pruneNow: int): World
    requires request in w.held
  {
    w.(tokens := Restore(w.tokens, w.held[request], now, pruneNow), held := w.held - {request})
  }

  ghost predicate Run(worlds: seq<World>, events: seq<Event>) {
    && |worlds| == |events| + 1
    && worlds[0] == World([], map[], [], map[])
    && forall i :: 0 <= i < |events| ==> Allowed(worlds[i], events[i]) && worlds[i + 1] == Step(worlds[i], events[i])
  }

  ghost predicate Inv(w: World) {
    && Ok(w.tokens)
    && (forall e :: e in w.tokens ==> e.token in w.issued && w.issued[e.token] == e)
    && (forall q :: q in w.held ==> w.held[q].token in w.issued && w.issued[w.held[q].token] == w.held[q])
    && (forall k :: 0 <= k < |w.registered| ==> w.registered[k] in w.issued)
    // No token is in two places.
    && (forall q :: q in w.held ==> !Has(w.tokens, w.held[q].token) && w.held[q].token !in w.registered)
    && (forall p, q :: p in w.held && q in w.held && w.held[p].token == w.held[q].token ==> p == q)
    && (forall k :: 0 <= k < |w.registered| ==> !Has(w.tokens, w.registered[k]))
    && NoDup(w.registered)
  }

  lemma GiveBackKeepsInv(w: World, request: nat, now: int, pruneNow: int)
    requires Inv(w) && request in w.held
    ensures Inv(GiveBack(w, request, now, pruneNow))
  {
    RestoreKeeps(w.tokens, w.held[request], now, pruneNow);
    hide Restore, Ok;
  }

  lemma MintKeepsInv(w: World, b: BurrowId, token: Token, now: int, mintNow: int)
    requires Inv(w) && token !in w.issued
    ensures Inv(Step(w, Mint(b, token, now, mintNow)))
  {
    assert !Has(w.tokens, token);
    IssueKeeps(w.tokens, b, token, now, mintNow);
    hide Issue, Ok;
  }

  lemma BeginKeepsInv(w: World, token: Token, now: int)
    requires Inv(w)
    ensures Inv(Step(w, Begin(token, now)))
  {
    PeekKeeps(w.tokens, token, now);
    hide Peek, Ok;
  }

  lemma SpendKeepsInv(w: World, request: nat, token: Token, now: int)
    requires Inv(w) && request !in w.held
    ensures Inv(Step(w, Spend(request, token, now)))
  {
    ConsumeKeeps(w.tokens, token, now);
    hide Consume, Ok;
  }

  lemma LeaveKeepsInv(w: World, e: Event)
    requires Inv(w) && Allowed(w, e) && (e.Registers? || e.MinterRevoked? || e.Retired?)
    ensures Inv(Step(w, e))
  {
    hide Ok;
  }

  lemma StepKeepsInv(w: World, e: Event)
    requires Inv(w) && Allowed(w, e)
    ensures Inv(Step(w, e))
  {
    hide Inv;
    match e
    case Mint(b, token, now, mintNow) => MintKeepsInv(w, b, token, now, mintNow);
    case Begin(token, now) => hide Step; BeginKeepsInv(w, token, now);
    case Spend(request, token, now) => hide Step; SpendKeepsInv(w, request, token, now);
    case GateThrows(request, now, pruneNow) => GiveBackKeepsInv(w, request, now, pruneNow);
    case FinishFails(request, now, pruneNow) => GiveBackKeepsInv(w, request, now, pruneNow);
    case _ => hide Step; LeaveKeepsInv(w, e);
  }

  lemma {:induction false} RunKeepsInv(worlds: seq<World>, events: seq<Event>, i: nat)
    requires Run(worlds, events) && i < |worlds|
    ensures Inv(worlds[i])
  {
    if i > 0 {
      hide Inv, Step;
      RunKeepsInv(worlds, events, i - 1);
      StepKeepsInv(worlds[i - 1], events[i - 1]);
    } else {
      assert forall b :: Own([], b) == [];
    }
  }

  // How many uses of a token exist: in the map, with requests, and as passkeys.
  ghost function Uses(w: World, token: Token): nat {
    (if Has(w.tokens, token) then 1 else 0) + |HeldUses(w, token)| + |Passkeys(w, token)|
  }

  ghost function HeldUses(w: World, token: Token): set<nat> {
    set q | q in w.held && w.held[q].token == token
  }

  ghost function Passkeys(w: World, token: Token): set<int> {
    set k | 0 <= k < |w.registered| && w.registered[k] == token
  }

  // A token is conserved: whatever interleaving of mints, looks, finishes,
  // retirements and failures, it is in at most one place and registers at most one
  // passkey; it keeps the expiry and the Burrow it was minted with; and no Burrow
  // has more than its cap.
  lemma TokensAreConserved(worlds: seq<World>, events: seq<Event>, i: nat, token: Token)
    requires Run(worlds, events) && i < |worlds|
    ensures Uses(worlds[i], token) <= 1
    ensures forall e :: e in worlds[i].tokens ==> e.token in worlds[i].issued && worlds[i].issued[e.token] == e
    ensures forall b :: |Own(worlds[i].tokens, b)| <= MAX_TOKENS_PER_BURROW
  {
    RunKeepsInv(worlds, events, i);
    var w := worlds[i];
    AtMostOne(HeldUses(w, token));
    AtMostOne(Passkeys(w, token));
    assert HeldUses(w, token) != {} ==> Passkeys(w, token) == {};
  }

  lemma AtMostOne<T>(s: set<T>)
    requires forall x, y :: x in s && y in s ==> x == y
    ensures |s| <= 1
  {
    if s != {} {
      var x :| x in s;
      assert s == {x};
    }
  }

  // What is issued is never altered.
  lemma {:induction false} IssuedStays(worlds: seq<World>, events: seq<Event>, i: nat, j: nat, token: Token)
    requires Run(worlds, events) && i <= j < |worlds| && token in worlds[i].issued
    ensures token in worlds[j].issued && worlds[j].issued[token] == worlds[i].issued[token]
    decreases j
  {
    if i < j {
      IssuedStays(worlds, events, i, j - 1, token);
      hide Issue, Peek, Consume, Restore;
    }
  }

  // The token is live, or held by a finish, as this entry.
  ghost predicate Carries(w: World, e: Entry) {
    e in w.tokens || exists q :: q in w.held && w.held[q] == e
  }

  // Whoever has a token, live or held, before or after being given back any number of
  // times, has it for the Burrow it was minted for and with the expiry it was minted with.
  lemma ExpiryNeverChanges(worlds: seq<World>, events: seq<Event>, i: nat, j: nat, e: Entry, f: Entry)
    requires Run(worlds, events) && i < |worlds| && j < |worlds|
    requires Carries(worlds[i], e) && Carries(worlds[j], f) && e.token == f.token
    ensures e == f
  {
    RunKeepsInv(worlds, events, i);
    RunKeepsInv(worlds, events, j);
    hide Ok;
    if i <= j {
      IssuedStays(worlds, events, i, j, e.token);
    } else {
      IssuedStays(worlds, events, j, i, e.token);
    }
  }

  // ----- What each request does to its token ---------------------------------------------

  // A finish takes the token exactly when it is in the map and alive, and holds it from then.
  lemma SpendTakes(worlds: seq<World>, events: seq<Event>, i: nat, q: nat, token: Token, now: int)
    requires Run(worlds, events) && i < |events| && events[i] == Spend(q, token, now)
    ensures var w, w' := worlds[i], worlds[i + 1];
      && w'.registered == w.registered && w'.issued == w.issued && !Has(w'.tokens, token)
      && (forall x :: x in w'.tokens <==> x in w.tokens && x.token != token)
      && if exists x :: x in w.tokens && x.token == token && now < x.expiresAt
         then exists x :: x in w.tokens && x.token == token && w'.held == w.held[q := x]
         else w'.held == w.held
  {
    RunKeepsInv(worlds, events, i);
    ConsumeKeeps(worlds[i].tokens, token, now);
    hide Consume, Ok;
  }

  // A finish that fails, or throws at the gate, has given its token back as it was: it is
  // scannable again while it lives, no passkey is registered, and nobody else is touched.
  lemma FailureGivesBack(worlds: seq<World>, events: seq<Event>, i: nat, q: nat, now: int, pruneNow: int)
    requires Run(worlds, events) && i < |events|
    requires events[i] == FinishFails(q, now, pruneNow) || events[i] == GateThrows(q, now, pruneNow)
    ensures q in worlds[i].held
    ensures var w, w', e := worlds[i], worlds[i + 1], worlds[i].held[q];
      && w'.held == w.held - {q} && w'.registered == w.registered && w'.issued == w.issued
      && w'.tokens ==
           if e.expiresAt <= now then w.tokens
           else Filter((x: Entry) => Left(w.tokens, e.burrowId, pruneNow, x), w.tokens) + [e]
  {
    RunKeepsInv(worlds, events, i);
    hide Ok, Restore;
    var w := worlds[i];
    assert Allowed(w, events[i]);
    RestoreLeaves(w.tokens, w.held[q], now, pruneNow);
  }

  // So the request's own token can be spent again at once, by anyone, while it lives.
  lemma ScannableAgain(worlds: seq<World>, events: seq<Event>, i: nat, q: nat, now: int, pruneNow: int, q': nat, now': int)
    requires Run(worlds, events) && i + 1 < |events|
    requires events[i] == FinishFails(q, now, pruneNow) || events[i] == GateThrows(q, now, pruneNow)
    requires q in worlds[i].held && events[i + 1] == Spend(q', worlds[i].held[q].token, now')
    requires now < worlds[i].held[q].expiresAt && now' < worlds[i].held[q].expiresAt
    ensures q' in worlds[i + 2].held && worlds[i + 2].held[q'] == worlds[i].held[q]
  {
    var e := worlds[i].held[q];
    FailureGivesBack(worlds, events, i, q, now, pruneNow);
    RunKeepsInv(worlds, events, i + 1);
    SpendTakes(worlds, events, i + 1, q', e.token, now');
    var ts := worlds[i + 1].tokens;
    hide Ok, Step, Filter, Run;
    assert ts[|ts| - 1] == e && e in ts;
    var x :| x in ts && x.token == e.token && worlds[i + 2].held == worlds[i + 1].held[q' := x];
  }

  // A finish that succeeds registers exactly its own token; one whose Burrow is revoked or
  // retired in between just loses it.
  lemma FinishEnds(worlds: seq<World>, events: seq<Event>, i: nat, q: nat)
    requires Run(worlds, events) && i < |events|
    requires events[i] == Registers(q) || events[i] == MinterRevoked(q) || events[i] == Retired(q)
    ensures q in worlds[i].held
    ensures worlds[i + 1].tokens == worlds[i].tokens && worlds[i + 1].held == worlds[i].held - {q}
    ensures worlds[i + 1].registered == worlds[i].registered + if events[i].Registers? then [worlds[i].held[q].token] else []
  {
    assert Allowed(worlds[i], events[i]) && worlds[i + 1] == Step(worlds[i], events[i]);
  }

  // ----- The issuer ------------------------------------------------------------------

  class SetupTokenIssuer {
    var tokens: Tokens

    constructor ()
      ensures tokens == []
    {
      tokens := [];
    }

    method DropExpired(now: int)
      modifies this
      ensures tokens == PruneExpired(old(tokens), now)
    {
      var all := tokens;
      var kept: Tokens := [];
      var i := 0;
      while i < |all|
        invariant 0 <= i <= |all| && kept == PruneExpired(all[..i], now)
      {
        assert all[..i + 1][..i] == all[..i];
        if now < all[i].expiresAt {
          kept := kept + [all[i]];
        }
        i := i + 1;
      }
      assert all[..i] == all;
      tokens := kept;
    }

    // Deletes the Burrow's oldest rows one by one.
    method TrimBurrow(burrowId: BurrowId, limit: nat)
      requires UniqueTokens(tokens)
      modifies this
      ensures tokens == Trim(old(tokens), burrowId, limit)
    {
      ghost var all := tokens;
      var own := ByAge(tokens, burrowId);
      var n := if |own| <= limit then 0 else |own| - limit;
      VictimsAreOwn(all, burrowId, limit);
      var i := 0;
      FilterAll((e: Entry) => e !in own[..0], all);
      while i < n
        invariant 0 <= i <= n
        invariant tokens == Filter((e: Entry) => e !in own[..i], all)
      {
        DeleteOne(all, own, i);
        tokens := Delete(tokens, own[i].token);
        i := i + 1;
      }
    }

    method IssueToken(burrowId: BurrowId, token: Token, now: int, mintNow: int) returns (expiresAt: int)
      requires Ok(tokens) && !Has(tokens, token)
      modifies this
      ensures tokens == Issue(old(tokens), burrowId, token, now, mintNow) && Ok(tokens)
      ensures expiresAt == mintNow + SETUP_TOKEN_TTL_MS
    {
      IssueKeeps(tokens, burrowId, token, now, mintNow);
      FilterOk((e: Entry) => now < e.expiresAt, tokens);
      DropExpired(now);
      TrimBurrow(burrowId, MAX_TOKENS_PER_BURROW - 1);
      expiresAt := mintNow + SETUP_TOKEN_TTL_MS;
      tokens := tokens + [Entry(token, burrowId, expiresAt)];
    }

    method PeekToken(token: Token, now: int) returns (entry: Option<Entry>)
      requires Ok(tokens)
      modifies this
      ensures (tokens, entry) == Peek(old(tokens), token, now) && Ok(tokens)
    {
      PeekKeeps(tokens, token, now);
      entry := Find(tokens, token);
      if entry.None? { return; }
      if now >= entry.value.expiresAt {
        tokens := Delete(tokens, token);
        return None;
      }
    }

    method ConsumeToken(token: Token, now: int) returns (entry: Option<Entry>)
      requires Ok(tokens)
      modifies this
      ensures (tokens, entry) == Consume(old(tokens), token, now) && Ok(tokens)
    {
      ConsumeKeeps(tokens, token, now);
      entry := Find(tokens, token);
      if entry.None? { return; }
      tokens := Delete(tokens, token);
      if now >= entry.value.expiresAt {
        entry := None;
      }
    }

    method RestoreToken(entry: Entry, now: int, pruneNow: int)
      requires Ok(tokens) && !Has(tokens, entry.token)
      modifies this
      ensures tokens == Restore(old(tokens), entry, now, pruneNow) && Ok(tokens)
    {
      RestoreKeeps(tokens, entry, now, pruneNow);
      if now >= entry.expiresAt { return; }
      FilterOk((e: Entry) => e.token != entry.token, tokens);
      tokens := Delete(tokens, entry.token);
      FilterOk((e: Entry) => pruneNow < e.expiresAt, tokens);
      DropExpired(pruneNow);
      TrimBurrow(entry.burrowId, MAX_TOKENS_PER_BURROW - 1);
      tokens := tokens + [entry];
    }
  }

  // Deleting by token one more of the oldest rows.
  lemma DeleteOne(all: Tokens, own: Tokens, i: nat)
    requires UniqueTokens(all) && i < |own| && own[i] in all
    ensures Delete(Filter((e: Entry) => e !in own[..i], all), own[i].token)
         == Filter((e: Entry) => e !in own[..i + 1], all)
  {
    DeleteOneOf(all, all, own, i);
  }

  lemma {:induction false} DeleteOneOf(all: Tokens, ts: Tokens, own: Tokens, i: nat)
    requires UniqueTokens(all) && i < |own| && own[i] in all
    requires forall e :: e in ts ==> e in all
    ensures Delete(Filter((e: Entry) => e !in own[..i], ts), own[i].token)
         == Filter((e: Entry) => e !in own[..i + 1], ts)
  {
    if ts != [] {
      var front, x := ts[..|ts| - 1], ts[|ts| - 1];
      assert x in ts;
      DeleteOneOf(all, front, own, i);
      var kept := Filter((e: Entry) => e !in own[..i], front);
      FilterAppend((e: Entry) => e.token != own[i].token, kept, x);
      assert own[..i + 1] == own[..i] + [own[i]];
      assert x.token == own[i].token ==> x == own[i];
      assert kept + [] == kept;
    }
  }
}
