/**
 Presence nonces: one bucket per session, kept least recently written first, and
 an index from each nonce to its session.
 */
module PresenceNonces {
  import opened Common

  const MAX_NONCES_PER_SESSION: nat := 8
  const MAX_NONCE_SESSIONS: nat := 32
  const NONCE_TTL_MS: int := 120_000

  type Session = nat
  type Nonce = nat
  type Binding = nat

  datatype Pending = Pending(nonce: Nonce, binding: Binding, expiresAt: int)
  datatype Bucket = Bucket(session: Session, entries: seq<Pending>)

  // The map of buckets and each bucket, in insertion order.
  type Buckets = seq<Bucket>

  // ----- Specification ------------------------------------------------------------

  function Mapped(bs: Buckets, f: Pending -> bool): Buckets {
    if bs == [] then []
    else
      var b := bs[|bs| - 1];
      Mapped(bs[..|bs| - 1], f) + [Bucket(b.session, Filter(f, b.entries))]
  }

  // The entries `f` holds of, without the buckets that leaves empty.
  function Keep(bs: Buckets, f: Pending -> bool): Buckets {
    Filter((b: Bucket) => b.entries != [], Mapped(bs, f))
  }

  function Sweep(bs: Buckets, now: int): Buckets {
    Keep(bs, (e: Pending) => now < e.expiresAt)
  }

  function Without(bs: Buckets, s: Session): Buckets {
    Filter((b: Bucket) => b.session != s, bs)
  }

  function EntriesOf(bs: Buckets, s: Session): seq<Pending> {
    if bs == [] then []
    else if bs[|bs| - 1].session == s then bs[|bs| - 1].entries
    else EntriesOf(bs[..|bs| - 1], s)
  }

  function LastOf<T>(s: seq<T>, n: nat): seq<T> {
    if |s| <= n then s else s[|s| - n..]
  }

  function Fresh(n: Nonce, binding: Binding, now: int): Pending {
    Pending(n, binding, now + NONCE_TTL_MS)
  }

  // The writing session's bucket, moved to the end.
  function Written(bs: Buckets, s: Session, e: Pending): Buckets {
    Without(bs, s) + [Bucket(s, LastOf(EntriesOf(bs, s), MAX_NONCES_PER_SESSION - 1) + [e])]
  }

  function Remember(bs: Buckets, s: Session, n: Nonce, binding: Binding, now: int): Buckets {
    LastOf(Written(Sweep(bs, now), s, Fresh(n, binding, now)), MAX_NONCE_SESSIONS)
  }

  function FindIn(es: seq<Pending>, n: Nonce): (r: Option<Pending>)
    ensures r.Some? ==> r.value in es && r.value.nonce == n
    ensures r.None? ==> forall e :: e in es ==> e.nonce != n
  {
    if es == [] then None
    else if es[|es| - 1].nonce == n then Some(es[|es| - 1])
    else FindIn(es[..|es| - 1], n)
  }

  function Lookup(bs: Buckets, n: Nonce): Option<Pending> {
    if bs == [] then None
    else
      var e := FindIn(bs[|bs| - 1].entries, n);
      if e.Some? then e else Lookup(bs[..|bs| - 1], n)
  }

  function Consume(bs: Buckets, n: Nonce, now: int): (Buckets, Option<Pending>) {
    var e := Lookup(bs, n);
    (Keep(bs, (x: Pending) => x.nonce != n), if e.Some? && now < e.value.expiresAt then e else None)
  }

  // ----- The flat map ---------------------------------------------------------------

  ghost predicate Has(bs: Buckets, s: Session, e: Pending) {
    exists b :: b in bs && b.session == s && e in b.entries
  }

  ghost predicate DistinctSessions(bs: Buckets) {
    forall i, j :: 0 <= i < j < |bs| ==> bs[i].session != bs[j].session
  }

  ghost predicate DistinctNonces(es: seq<Pending>) {
    forall i, j :: 0 <= i < j < |es| ==> es[i].nonce != es[j].nonce
  }

  // A nonce is held once.
  ghost predicate Unique(bs: Buckets) {
    && (forall b :: b in bs ==> DistinctNonces(b.entries))
    && (forall s, e, t, f :: Has(bs, s, e) && Has(bs, t, f) && e.nonce == f.nonce ==> s == t && e == f)
  }

  ghost predicate Capped(bs: Buckets) {
    && |bs| <= MAX_NONCE_SESSIONS
    && forall b :: b in bs ==> 1 <= |b.entries| <= MAX_NONCES_PER_SESSION
  }

  ghost predicate Ok(bs: Buckets) {
    DistinctSessions(bs) && Unique(bs) && Capped(bs)
  }

  datatype Held = Held(session: Session, entry: Pending)

  ghost function Nonces(bs: Buckets): set<Nonce> {
    set b, e | b in bs && e in b.entries :: e.nonce
  }

  ghost function HolderOf(bs: Buckets, n: Nonce): (h: Held)
    requires n in Nonces(bs)
    ensures Has(bs, h.session, h.entry) && h.entry.nonce == n
  {
    var b, e :| b in bs && e in b.entries && e.nonce == n;
    Held(b.session, e)
  }

  ghost function Flat(bs: Buckets): map<Nonce, Held> {
    map n | n in Nonces(bs) :: HolderOf(bs, n)
  }

  lemma FlatMeaning(bs: Buckets)
    requires Unique(bs)
    ensures forall s, e :: Has(bs, s, e) <==> e.nonce in Flat(bs) && Flat(bs)[e.nonce] == Held(s, e)
    ensures forall n :: n in Flat(bs) ==> Has(bs, Flat(bs)[n].session, Flat(bs)[n].entry) && Flat(bs)[n].entry.nonce == n
  {
    forall s, e | Has(bs, s, e)
      ensures e.nonce in Flat(bs) && Flat(bs)[e.nonce] == Held(s, e)
    {
      var b :| b in bs && b.session == s && e in b.entries;
      assert e.nonce in Nonces(bs);
    }
  }

  // ----- What each piece does ---------------------------------------------------------

  lemma {:induction false} MappedShape(bs: Buckets, f: Pending -> bool)
    ensures |Mapped(bs, f)| == |bs|
    ensures forall i :: 0 <= i < |bs| ==> Mapped(bs, f)[i] == Bucket(bs[i].session, Filter(f, bs[i].entries))
  {
    if bs != [] {
      MappedShape(bs[..|bs| - 1], f);
    }
  }

  lemma KeepHas(bs: Buckets, f: Pending -> bool)
    ensures forall s, e :: Has(Keep(bs, f), s, e) <==> Has(bs, s, e) && f(e)
  {
    var ms := Mapped(bs, f);
    MappedShape(bs, f);
    FilterMembers((b: Bucket) => b.entries != [], ms);
    forall s, e
      ensures Has(Keep(bs, f), s, e) <==> Has(bs, s, e) && f(e)
    {
      if Has(Keep(bs, f), s, e) {
        var b :| b in ms && b.session == s && e in b.entries;
        var i :| 0 <= i < |ms| && ms[i] == b;
        FilterMembers(f, bs[i].entries);
        assert bs[i] in bs;
      }
      if Has(bs, s, e) && f(e) {
        var b :| b in bs && b.session == s && e in b.entries;
        var i :| 0 <= i < |bs| && bs[i] == b;
        FilterMembers(f, bs[i].entries);
        assert ms[i] in ms && e in ms[i].entries;
      }
    }
  }

  // A bucket that survives is a filtered bucket that was there.
  lemma KeepBucket(bs: Buckets, f: Pending -> bool, b: Bucket)
    requires b in Keep(bs, f)
    ensures b.entries != []
    ensures exists a :: a in bs && a.session == b.session && b.entries == Filter(f, a.entries)
  {
    var ms := Mapped(bs, f);
    MappedShape(bs, f);
    FilterMembers((b: Bucket) => b.entries != [], ms);
    var i :| 0 <= i < |ms| && ms[i] == b;
    assert bs[i] in bs;
  }

  lemma KeepOk(bs: Buckets, f: Pending -> bool)
    requires Ok(bs)
    ensures Ok(Keep(bs, f)) && |Keep(bs, f)| <= |bs|
  {
    var ms := Mapped(bs, f);
    MappedShape(bs, f);
    FilterMembers((b: Bucket) => b.entries != [], ms);
    FilterPairwise((b: Bucket) => b.entries != [], (a: Bucket, b: Bucket) => a.session != b.session, ms);
    KeepHas(bs, f);
    forall b | b in Keep(bs, f)
      ensures 1 <= |b.entries| <= MAX_NONCES_PER_SESSION && DistinctNonces(b.entries)
    {
      KeepBucket(bs, f, b);
      var a :| a in bs && a.session == b.session && b.entries == Filter(f, a.entries);
      FilterMembers(f, a.entries);
      FilterPairwise(f, (x: Pending, y: Pending) => x.nonce != y.nonce, a.entries);
    }
  }

  lemma {:induction false} EntriesMeaning(bs: Buckets, s: Session)
    requires DistinctSessions(bs)
    ensures forall e :: e in EntriesOf(bs, s) <==> Has(bs, s, e)
    ensures EntriesOf(bs, s) != [] ==> Bucket(s, EntriesOf(bs, s)) in bs
  {
    if bs != [] {
      var front, last := bs[..|bs| - 1], bs[|bs| - 1];
      EntriesMeaning(front, s);
      assert bs == front + [last];
      forall e
        ensures e in EntriesOf(bs, s) <==> Has(bs, s, e)
      {
        if Has(bs, s, e) {
          var b :| b in bs && b.session == s && e in b.entries;
          assert b in front || b == last;
        }
        if e in EntriesOf(bs, s) && last.session != s {
          var b :| b in front && b.session == s && e in b.entries;
          assert b in bs;
        }
      }
    }
  }

  lemma WithoutHas(bs: Buckets, s: Session)
    ensures forall t, e :: Has(Without(bs, s), t, e) <==> Has(bs, t, e) && t != s
  {
    FilterMembers((b: Bucket) => b.session != s, bs);
  }

  // What the writing session keeps of its own: its newest, leaving room for one.
  function Spared(bs: Buckets, s: Session): seq<Pending> {
    LastOf(EntriesOf(bs, s), MAX_NONCES_PER_SESSION - 1)
  }

  lemma WrittenHas(bs: Buckets, s: Session, e: Pending)
    ensures forall t, x :: Has(Written(bs, s, e), t, x) <==>
              if t == s then x == e || x in Spared(bs, s) else Has(bs, t, x)
  {
    WithoutHas(bs, s);
    var mine := Bucket(s, Spared(bs, s) + [e]);
    var w := Written(bs, s, e);
    forall t, x
      ensures Has(w, t, x) <==> if t == s then x == e || x in Spared(bs, s) else Has(bs, t, x)
    {
      if Has(w, t, x) {
        var b :| b in w && b.session == t && x in b.entries;
        assert b in Without(bs, s) || b == mine;
        assert b in Without(bs, s) ==> Has(Without(bs, s), t, x);
      }
      if t == s && (x == e || x in Spared(bs, s)) {
        assert mine in w;
      }
      if t != s && Has(bs, t, x) {
        var b :| b in Without(bs, s) && b.session == t && x in b.entries;
        assert b in w;
      }
    }
  }

  // A session that held nothing here has no bucket here.
  lemma WithoutShorter(bs: Buckets, s: Session)
    requires Ok(bs) && EntriesOf(bs, s) != []
    ensures |Without(bs, s)| < |bs|
  {
    var mine := Bucket(s, EntriesOf(bs, s));
    EntriesMeaning(bs, s);
    var f := (b: Bucket) => b.session != s;
    FilterMembers(f, bs);
    if |Filter(f, bs)| == |bs| {
      FilterFull(f, bs);
    }
  }

  lemma WrittenSessions(bs: Buckets, s: Session, e: Pending)
    requires Ok(bs)
    ensures DistinctSessions(Written(bs, s, e))
    ensures |Written(bs, s, e)| <= |bs| + 1
    ensures EntriesOf(bs, s) != [] ==> |Written(bs, s, e)| <= |bs|
  {
    var f := (b: Bucket) => b.session != s;
    FilterMembers(f, bs);
    FilterPairwise(f, (a: Bucket, b: Bucket) => a.session != b.session, bs);
    var rest := Without(bs, s);
    assert DistinctSessions(rest);
    assert forall i :: 0 <= i < |rest| ==> rest[i] in rest;
    if EntriesOf(bs, s) != [] {
      WithoutShorter(bs, s);
    }
  }

  lemma WrittenBuckets(bs: Buckets, s: Session, e: Pending)
    requires Ok(bs) && e.nonce !in Nonces(bs)
    ensures forall b :: b in Written(bs, s, e) ==> DistinctNonces(b.entries) && 1 <= |b.entries| <= MAX_NONCES_PER_SESSION
  {
    var w := Written(bs, s, e);
    FilterMembers((b: Bucket) => b.session != s, bs);
    EntriesMeaning(bs, s);
    assert forall x :: x in Spared(bs, s) ==> x in EntriesOf(bs, s);
    if EntriesOf(bs, s) != [] {
      var mine := Bucket(s, EntriesOf(bs, s));
      assert forall x :: x in mine.entries ==> x.nonce in Nonces(bs);
    }
    assert DistinctNonces(Spared(bs, s) + [e]);
    assert forall b :: b in w ==> b in Without(bs, s) || b == Bucket(s, Spared(bs, s) + [e]);
  }

  lemma WrittenUnique(bs: Buckets, s: Session, e: Pending)
    requires Ok(bs) && e.nonce !in Nonces(bs)
    ensures Unique(Written(bs, s, e))
  {
    WrittenBuckets(bs, s, e);
    WrittenHas(bs, s, e);
    EntriesMeaning(bs, s);
    assert forall x :: x in Spared(bs, s) ==> x in EntriesOf(bs, s);
    forall t, x | Has(bs, t, x)
      ensures x.nonce != e.nonce
    {
      var b :| b in bs && b.session == t && x in b.entries;
    }
    hide Has, Written, EntriesOf, DistinctNonces, Nonces, Spared;
  }

  // A write moves the session to the end within its own cap and holds nothing twice.
  lemma WrittenOk(bs: Buckets, s: Session, e: Pending)
    requires Ok(bs) && e.nonce !in Nonces(bs)
    ensures var w := Written(bs, s, e);
      && DistinctSessions(w) && Unique(w)
      && (forall b :: b in w ==> 1 <= |b.entries| <= MAX_NONCES_PER_SESSION)
      && |w| <= |bs| + 1
      && (EntriesOf(bs, s) != [] ==> |w| <= |bs|)
  {
    WrittenSessions(bs, s, e);
    WrittenBuckets(bs, s, e);
    WrittenUnique(bs, s, e);
  }

  // Dropping whole buckets from the front.
  lemma LastOfOk(bs: Buckets, n: nat)
    requires DistinctSessions(bs) && Unique(bs)
    ensures DistinctSessions(LastOf(bs, n)) && Unique(LastOf(bs, n)) && |LastOf(bs, n)| <= n
    ensures forall t, x :: Has(LastOf(bs, n), t, x) ==> Has(bs, t, x)
    ensures forall b :: b in LastOf(bs, n) ==> b in bs
  {
    var r := LastOf(bs, n);
    assert forall b :: b in r ==> b in bs;
    assert forall t, x :: Has(r, t, x) ==> Has(bs, t, x);
  }

  lemma SweepNonces(bs: Buckets, now: int)
    ensures Nonces(Sweep(bs, now)) <= Nonces(bs)
  {
    KeepHas(bs, (e: Pending) => now < e.expiresAt);
    forall n | n in Nonces(Sweep(bs, now))
      ensures n in Nonces(bs)
    {
      var h := HolderOf(Sweep(bs, now), n);
      var b :| b in bs && b.session == h.session && h.entry in b.entries;
    }
  }

  lemma RememberOk(bs: Buckets, s: Session, n: Nonce, binding: Binding, now: int)
    requires Ok(bs) && n !in Nonces(bs)
    ensures Ok(Remember(bs, s, n, binding, now))
  {
    var swept := Sweep(bs, now);
    KeepOk(bs, (e: Pending) => now < e.expiresAt);
    SweepNonces(bs, now);
    WrittenOk(swept, s, Fresh(n, binding, now));
    LastOfOk(Written(swept, s, Fresh(n, binding, now)), MAX_NONCE_SESSIONS);
  }

  // ----- Refinement of the flat map -------------------------------------------------------

  // The flat map of what remains is what remains of the flat map.
  lemma FlatOfSubset(bs: Buckets, r: Buckets, m: Nonce)
    requires Unique(bs) && Unique(r)
    requires forall s, e :: Has(r, s, e) ==> Has(bs, s, e)
    ensures m in Flat(r) ==> m in Flat(bs) && Flat(bs)[m] == Flat(r)[m]
    ensures m in Flat(bs) && Has(r, Flat(bs)[m].session, Flat(bs)[m].entry) ==> m in Flat(r)
  {
    FlatMeaning(bs);
    FlatMeaning(r);
    hide Unique, Has, Flat;
    if m in Flat(r) {
      var h := Flat(r)[m];
      assert Has(r, h.session, h.entry);
    }
    if m in Flat(bs) {
      var h := Flat(bs)[m];
      assert Has(bs, h.session, h.entry);
    }
  }

  lemma FlatOfKeep(bs: Buckets, f: Pending -> bool, m: Nonce)
    requires Ok(bs)
    ensures m in Flat(bs) ==> Flat(bs)[m].entry.nonce == m
    ensures m in Flat(Keep(bs, f)) <==> m in Flat(bs) && f(Flat(bs)[m].entry)
    ensures m in Flat(Keep(bs, f)) ==> Flat(Keep(bs, f))[m] == Flat(bs)[m]
  {
    var r := Keep(bs, f);
    KeepOk(bs, f);
    KeepHas(bs, f);
    FlatOfSubset(bs, r, m);
    FlatMeaning(bs);
    hide Unique, Has, Keep, Flat;
    if m in Flat(r) {
      assert Has(r, Flat(r)[m].session, Flat(r)[m].entry) by { FlatMeaning(r); }
    }
  }

  // Spending removes exactly the nonce, whatever it answers, and answers it only alive.
  lemma ConsumeRefines(bs: Buckets, n: Nonce, now: int)
    requires Ok(bs)
    ensures Ok(Consume(bs, n, now).0)
    ensures Flat(Consume(bs, n, now).0) == Flat(bs) - {n}
    ensures Consume(bs, n, now).1
         == if n in Flat(bs) && now < Flat(bs)[n].entry.expiresAt then Some(Flat(bs)[n].entry) else None
  {
    hide *;
    var f := (x: Pending) => x.nonce != n;
    KeepOk(bs, f);
    LookupMeaning(bs, n);
    ConsumeIs(bs, n, now, f);
    var r := Keep(bs, f);
    forall m
      ensures m in Flat(r) <==> m in Flat(bs) && m != n
      ensures m in Flat(r) ==> Flat(r)[m] == Flat(bs)[m]
    {
      FlatOfKeep(bs, f, m);
    }
    assert Flat(r).Keys == Flat(bs).Keys - {n};
  }

  lemma ConsumeIs(bs: Buckets, n: Nonce, now: int, f: Pending -> bool)
    requires f == ((x: Pending) => x.nonce != n)
    ensures Consume(bs, n, now).0 == Keep(bs, f)
    ensures var e := Lookup(bs, n); Consume(bs, n, now).1 == if e.Some? && now < e.value.expiresAt then e else None
  {
  }

  lemma {:induction false} LookupFinds(bs: Buckets, n: Nonce)
    ensures Lookup(bs, n).Some? ==> Lookup(bs, n).value.nonce == n && exists s :: Has(bs, s, Lookup(bs, n).value)
    ensures Lookup(bs, n).None? ==> forall s, e :: Has(bs, s, e) ==> e.nonce != n
  {
    if bs != [] {
      var front, last := bs[..|bs| - 1], bs[|bs| - 1];
      LookupFinds(front, n);
      assert bs == front + [last];
      var e := FindIn(last.entries, n);
      if e.Some? {
        assert Has(bs, last.session, e.value);
      } else {
        if Lookup(front, n).Some? {
          var s :| Has(front, s, Lookup(front, n).value);
          assert Has(bs, s, Lookup(front, n).value);
        }
        forall s, x | Has(bs, s, x)
          ensures x.nonce == n ==> Lookup(bs, n).Some?
        {
          var b :| b in bs && b.session == s && x in b.entries;
          assert b in front ==> Has(front, s, x);
        }
      }
    }
  }

  lemma LookupMeaning(bs: Buckets, n: Nonce)
    requires Ok(bs)
    ensures Lookup(bs, n) == if n in Flat(bs) then Some(Flat(bs)[n].entry) else None
  {
    LookupFinds(bs, n);
    FlatMeaning(bs);
  }

  // The session written longest ago is first, and in a bucket the nonce remembered
  // longest ago.
  ghost predicate SessionsAged(bs: Buckets, at: map<Session, nat>, clock: nat) {
    && (forall b :: b in bs ==> b.session in at && at[b.session] < clock)
    && forall i, j :: 0 <= i < j < |bs| ==> at[bs[i].session] < at[bs[j].session]
  }

  ghost predicate NoncesAged(bs: Buckets, at: map<Nonce, nat>, clock: nat) {
    forall b :: b in bs ==> Aged(b.entries, at, clock)
  }

  ghost predicate Aged(es: seq<Pending>, at: map<Nonce, nat>, clock: nat) {
    && (forall e :: e in es ==> e.nonce in at && at[e.nonce] < clock)
    && forall i, j :: 0 <= i < j < |es| ==> at[es[i].nonce] < at[es[j].nonce]
  }

  lemma FilterAged(f: Pending -> bool, es: seq<Pending>, at: map<Nonce, nat>, clock: nat)
    requires Aged(es, at, clock)
    ensures Aged(Filter(f, es), at, clock)
  {
    FilterMembers(f, es);
    FilterPairwise(f, (x: Pending, y: Pending) => x.nonce in at && y.nonce in at && at[x.nonce] < at[y.nonce], es);
  }

  lemma FilterSessionsAged(f: Bucket -> bool, bs: Buckets, at: map<Session, nat>, clock: nat)
    requires SessionsAged(bs, at, clock)
    ensures SessionsAged(Filter(f, bs), at, clock)
  {
    var r := Filter(f, bs);
    FilterMembers(f, bs);
    assert forall i :: 0 <= i < |bs| ==> bs[i] in bs;
    assert forall i :: 0 <= i < |r| ==> r[i] in r;
    FilterPairwise(f, (a: Bucket, b: Bucket) =>
      a.session in at && b.session in at && at[a.session] < at[b.session], bs);
  }

  lemma KeepSessionsAged(bs: Buckets, f: Pending -> bool, at: map<Session, nat>, clock: nat)
    requires SessionsAged(bs, at, clock)
    ensures SessionsAged(Keep(bs, f), at, clock)
  {
    MappedShape(bs, f);
    assert forall i :: 0 <= i < |bs| ==> bs[i] in bs;
    FilterSessionsAged((b: Bucket) => b.entries != [], Mapped(bs, f), at, clock);
  }

  lemma KeepNoncesAged(bs: Buckets, f: Pending -> bool, at: map<Nonce, nat>, clock: nat)
    requires NoncesAged(bs, at, clock)
    ensures NoncesAged(Keep(bs, f), at, clock)
  {
    forall b | b in Keep(bs, f)
      ensures Aged(b.entries, at, clock)
    {
      KeepBucket(bs, f, b);
      var a :| a in bs && a.session == b.session && b.entries == Filter(f, a.entries);
      FilterAged(f, a.entries, at, clock);
    }
  }

  lemma SparedAged(bs: Buckets, s: Session, at: map<Nonce, nat>, clock: nat)
    requires Ok(bs) && NoncesAged(bs, at, clock)
    ensures Aged(EntriesOf(bs, s), at, clock) && Aged(Spared(bs, s), at, clock)
  {
    var all := EntriesOf(bs, s);
    EntriesMeaning(bs, s);
    if all != [] {
      assert Bucket(s, all) in bs;
    }
    assert Aged(all, at, clock);
    assert forall x :: x in Spared(bs, s) ==> x in all;
  }

  lemma AgedAppend(es: seq<Pending>, e: Pending, at: map<Nonce, nat>, clock: nat)
    requires Aged(es, at, clock) && e.nonce !in at
    ensures Aged(es, at[e.nonce := clock], clock + 1)
    ensures Aged(es + [e], at[e.nonce := clock], clock + 1)
  {
  }

  lemma WrittenNoncesAged(bs: Buckets, s: Session, e: Pending, at: map<Nonce, nat>, clock: nat)
    requires Ok(bs) && NoncesAged(bs, at, clock) && e.nonce !in at
    ensures NoncesAged(Written(bs, s, e), at[e.nonce := clock], clock + 1)
  {
    var mine := Bucket(s, Spared(bs, s) + [e]);
    SparedAged(bs, s, at, clock);
    AgedAppend(Spared(bs, s), e, at, clock);
    FilterMembers((b: Bucket) => b.session != s, bs);
    forall b | b in Written(bs, s, e)
      ensures Aged(b.entries, at[e.nonce := clock], clock + 1)
    {
      assert b in Without(bs, s) || b == mine;
      if b != mine {
        AgedAppend(b.entries, e, at, clock);
      }
    }
  }

  lemma WrittenSessionsAged(bs: Buckets, s: Session, e: Pending, at: map<Session, nat>, clock: nat)
    requires SessionsAged(bs, at, clock)
    ensures SessionsAged(Written(bs, s, e), at[s := clock], clock + 1)
  {
    var rest := Without(bs, s);
    FilterSessionsAged((b: Bucket) => b.session != s, bs, at, clock);
    FilterMembers((b: Bucket) => b.session != s, bs);
    assert forall i :: 0 <= i < |rest| ==> rest[i] in rest;
  }

  // ----- Every run ------------------------------------------------------------------------

  // The store, and what only the history knows: when each session wrote and each
  // nonce was remembered, what each was remembered as, and which were answered.
  datatype World = World(
    buckets: Buckets, clock: nat, writtenAt: map<Session, nat>, rememberedAt: map<Nonce, nat>,
    minted: map<Nonce, Held>, spent: set<Nonce>)

  datatype Event =
    | Remembers(session: Session, nonce: Nonce, binding: Binding, now: int)
    | Consumes(nonce: Nonce, now: int)

  // A nonce is drawn from 256 random bits: it is new.
  predicate Allowed(w: World, e: Event) {
    e.Remembers? ==> e.nonce !in w.minted
  }

  function Answer(w: World, e: Event): Option<Pending> {
    if e.Consumes? then Consume(w.buckets, e.nonce, e.now).1 else None
  }

  function Step(w: World, e: Event): World {
    match e
    case Remembers(s, n, binding, now) =>
      World(Remember(w.buckets, s, n, binding, now), w.clock + 1, w.writtenAt[s := w.clock],
            w.rememberedAt[n := w.clock], w.minted[n := Held(s, Fresh(n, binding, now))], w.spent)
    case Consumes(n, now) =>
      w.(buckets := Consume(w.buckets, n, now).0, spent := w.spent + if Answer(w, e).Some? then {n} else {})
  }

  ghost predicate Run(worlds: seq<World>, events: seq<Event>) {
    && |worlds| == |events| + 1
    && worlds[0] == World([], 0, map[], map[], map[], {})
    && forall i :: 0 <= i < |events| ==> Allowed(worlds[i], events[i]) && worlds[i + 1] == Step(worlds[i], events[i])
  }

  ghost predicate Ordered(w: World) {
    && SessionsAged(w.buckets, w.writtenAt, w.clock)
    && NoncesAged(w.buckets, w.rememberedAt, w.clock)
  }

  ghost predicate Ledger(flat: map<Nonce, Held>, minted: map<Nonce, Held>, spent: set<Nonce>) {
    && (forall n :: n in flat ==> n in minted && minted[n] == flat[n] && n !in spent)
    && spent <= minted.Keys
  }

  ghost predicate Inv(w: World) {
    && Ok(w.buckets)
    && Ordered(w)
    && w.minted.Keys == w.rememberedAt.Keys
    && Ledger(Flat(w.buckets), w.minted, w.spent)
  }

  lemma NoncesAreFlat(bs: Buckets)
    ensures Flat(bs).Keys == Nonces(bs)
  {
  }

  // Where a remembered store's entries come from.
  lemma RememberHas(bs: Buckets, s: Session, n: Nonce, binding: Binding, now: int, t: Session, x: Pending)
    requires Ok(bs) && Has(Remember(bs, s, n, binding, now), t, x)
    ensures (t == s && x == Fresh(n, binding, now)) || (Has(bs, t, x) && now < x.expiresAt)
  {
    var live := (e: Pending) => now < e.expiresAt;
    var swept := Sweep(bs, now);
    var w := Written(swept, s, Fresh(n, binding, now));
    KeepHas(bs, live);
    KeepOk(bs, live);
    WrittenHas(swept, s, Fresh(n, binding, now));
    EntriesMeaning(swept, s);
    assert Has(w, t, x) by {
      var b :| b in LastOf(w, MAX_NONCE_SESSIONS) && b.session == t && x in b.entries;
      assert b in w;
    }
    assert forall y :: y in Spared(swept, s) ==> y in EntriesOf(swept, s);
  }

  lemma SuffixAged(bs: Buckets, k: nat, writtenAt: map<Session, nat>, rememberedAt: map<Nonce, nat>, clock: nat)
    requires SessionsAged(bs, writtenAt, clock) && NoncesAged(bs, rememberedAt, clock) && k <= |bs|
    ensures SessionsAged(bs[k..], writtenAt, clock) && NoncesAged(bs[k..], rememberedAt, clock)
  {
    hide Aged;
    var r := bs[k..];
    forall b | b in r
      ensures b in bs
    {
    }
    forall i, j | 0 <= i < j < |r|
      ensures writtenAt[r[i].session] < writtenAt[r[j].session]
    {
      assert r[i] == bs[k + i] && r[j] == bs[k + j];
    }
  }

  lemma RememberIsSuffix(bs: Buckets, s: Session, n: Nonce, binding: Binding, now: int) returns (k: nat)
    ensures var w := Written(Sweep(bs, now), s, Fresh(n, binding, now));
      k <= |w| && Remember(bs, s, n, binding, now) == w[k..]
  {
    var w := Written(Sweep(bs, now), s, Fresh(n, binding, now));
    k := if |w| <= MAX_NONCE_SESSIONS then 0 else |w| - MAX_NONCE_SESSIONS;
  }

  lemma RememberAged(bs: Buckets, s: Session, n: Nonce, binding: Binding, now: int,
                     writtenAt: map<Session, nat>, rememberedAt: map<Nonce, nat>, clock: nat)
    requires Ok(bs) && SessionsAged(bs, writtenAt, clock) && NoncesAged(bs, rememberedAt, clock)
    requires n !in rememberedAt
    ensures SessionsAged(Remember(bs, s, n, binding, now), writtenAt[s := clock], clock + 1)
    ensures NoncesAged(Remember(bs, s, n, binding, now), rememberedAt[n := clock], clock + 1)
  {
    var live := (x: Pending) => now < x.expiresAt;
    var x := Fresh(n, binding, now);
    var swept := Sweep(bs, now);
    assert swept == Keep(bs, live) && x.nonce == n;
    hide *;
    KeepOk(bs, live);
    KeepSessionsAged(bs, live, writtenAt, clock);
    KeepNoncesAged(bs, live, rememberedAt, clock);
    WrittenSessionsAged(swept, s, x, writtenAt, clock);
    WrittenNoncesAged(swept, s, x, rememberedAt, clock);
    var k := RememberIsSuffix(bs, s, n, binding, now);
    SuffixAged(Written(swept, s, x), k, writtenAt[s := clock], rememberedAt[n := clock], clock + 1);
  }

  // A remembered store holds the new nonce, and otherwise nothing it did not hold.
  lemma RememberFlat(bs: Buckets, s: Session, n: Nonce, binding: Binding, now: int, m: Nonce)
    requires Ok(bs) && n !in Nonces(bs)
    ensures var r := Flat(Remember(bs, s, n, binding, now));
      m in r ==> if m == n then r[m] == Held(s, Fresh(n, binding, now))
                 else m in Flat(bs) && Flat(bs)[m] == r[m] && now < r[m].entry.expiresAt
  {
    var r := Remember(bs, s, n, binding, now);
    RememberOk(bs, s, n, binding, now);
    NoncesAreFlat(bs);
    if m in Flat(r) {
      var h := Flat(r)[m];
      assert Has(r, h.session, h.entry) && h.entry.nonce == m by { FlatMeaning(r); }
      RememberHas(bs, s, n, binding, now, h.session, h.entry);
      assert Has(bs, h.session, h.entry) ==> m in Flat(bs) && Flat(bs)[m] == h by { FlatMeaning(bs); }
    }
  }

  lemma RememberLedger(bs: Buckets, s: Session, n: Nonce, binding: Binding, now: int, minted: map<Nonce, Held>, spent: set<Nonce>)
    requires Ok(bs) && Ledger(Flat(bs), minted, spent) && n !in minted
    ensures Ok(Remember(bs, s, n, binding, now))
    ensures Ledger(Flat(Remember(bs, s, n, binding, now)), minted[n := Held(s, Fresh(n, binding, now))], spent)
  {
    hide Flat, Nonces, Ok, Remember, Fresh;
    NoncesAreFlat(bs);
    RememberOk(bs, s, n, binding, now);
    var r := Flat(Remember(bs, s, n, binding, now));
    forall m | m in r
      ensures if m == n then r[m] == Held(s, Fresh(n, binding, now)) else m in Flat(bs) && Flat(bs)[m] == r[m]
    {
      RememberFlat(bs, s, n, binding, now, m);
    }
  }

  lemma ConsumeOrdered(w: World, e: Event)
    requires Ordered(w) && e.Consumes?
    ensures Ordered(Step(w, e))
  {
    KeepSessionsAged(w.buckets, (x: Pending) => x.nonce != e.nonce, w.writtenAt, w.clock);
    KeepNoncesAged(w.buckets, (x: Pending) => x.nonce != e.nonce, w.rememberedAt, w.clock);
    hide Keep, SessionsAged, NoncesAged, Lookup;
  }

  lemma StepKeepsInv(w: World, e: Event)
    requires Inv(w) && Allowed(w, e)
    ensures Inv(Step(w, e))
  {
    if e.Remembers? {
      hide Ok, Flat, Nonces, SessionsAged, NoncesAged, Remember, Ledger;
      RememberLedger(w.buckets, e.session, e.nonce, e.binding, e.now, w.minted, w.spent);
      RememberAged(w.buckets, e.session, e.nonce, e.binding, e.now, w.writtenAt, w.rememberedAt, w.clock);
    } else {
      hide Ok, Ordered, Consume, Flat;
      ConsumeRefines(w.buckets, e.nonce, e.now);
      ConsumeOrdered(w, e);
    }
  }

  lemma {:induction false} RunKeepsInv(worlds: seq<World>, events: seq<Event>, i: nat)
    requires Run(worlds, events) && i < |worlds|
    ensures Inv(worlds[i])
  {
    if i > 0 {
      hide Inv, Step;
      RunKeepsInv(worlds, events, i - 1);
      StepKeepsInv(worlds[i - 1], events[i - 1]);
    }
  }

  // What is spent stays spent, and what was minted stays as it was minted.
  lemma {:induction false} HistoryStays(worlds: seq<World>, events: seq<Event>, i: nat, j: nat, n: Nonce)
    requires Run(worlds, events) && i <= j < |worlds|
    ensures n in worlds[i].spent ==> n in worlds[j].spent
    ensures n in worlds[i].minted ==> n in worlds[j].minted && worlds[j].minted[n] == worlds[i].minted[n]
    decreases j
  {
    if i < j {
      HistoryStays(worlds, events, i, j - 1, n);
      hide Remember, Consume;
    }
  }

  // Everything minted was minted by a request for it.
  lemma {:induction false} MintedBy(worlds: seq<World>, events: seq<Event>, i: nat, n: Nonce) returns (k: nat)
    requires Run(worlds, events) && i < |worlds| && n in worlds[i].minted
    ensures k < i && events[k].Remembers? && events[k].nonce == n
    ensures worlds[i].minted[n] == Held(events[k].session, Fresh(n, events[k].binding, events[k].now))
  {
    hide Remember, Consume, Fresh;
    if i == 0 {
      assert false;
    } else if n in worlds[i - 1].minted {
      k := MintedBy(worlds, events, i - 1, n);
    } else {
      k := i - 1;
    }
  }

  // A nonce is answered only before it expires, with the binding it was remembered
  // with, and never again: no later request for it gets anything.
  lemma RedeemedAtMostOnce(worlds: seq<World>, events: seq<Event>, i: nat, j: nat) returns (k: nat)
    requires Run(worlds, events) && i < j < |events|
    requires events[i].Consumes? && events[j].Consumes? && events[i].nonce == events[j].nonce
    requires Answer(worlds[i], events[i]).Some?
    ensures Answer(worlds[j], events[j]).None?
    ensures k < i && events[k].Remembers? && events[k].nonce == events[i].nonce
    ensures Answer(worlds[i], events[i]).value
         == Pending(events[i].nonce, events[k].binding, events[k].now + NONCE_TTL_MS)
    ensures events[i].now < events[k].now + NONCE_TTL_MS
  {
    var n := events[i].nonce;
    RunKeepsInv(worlds, events, i);
    RunKeepsInv(worlds, events, j);
    ConsumeRefines(worlds[i].buckets, n, events[i].now);
    ConsumeRefines(worlds[j].buckets, n, events[j].now);
    assert n in worlds[i + 1].spent by { hide Consume, Remember; }
    HistoryStays(worlds, events, i + 1, j, n);
    assert n in worlds[i].minted && worlds[i].minted[n] == Flat(worlds[i].buckets)[n];
    k := MintedBy(worlds, events, i, n);
  }

  // ----- What remembering costs -------------------------------------------------------------

  ghost function Mine(flat: map<Nonce, Held>, s: Session): set<Nonce> {
    set m | m in flat && flat[m].session == s
  }

  ghost function Sessions(flat: map<Nonce, Held>): set<Session> {
    set m | m in flat :: flat[m].session
  }

  // Of its own the writer can lose only what it remembered before all it keeps, and
  // only when it is left at its cap.
  lemma OwnLoss(bs: Buckets, s: Session, at: map<Nonce, nat>, clock: nat, x: Pending)
    requires Ok(bs) && NoncesAged(bs, at, clock)
    requires Has(bs, s, x) && x !in Spared(bs, s)
    ensures |Spared(bs, s)| == MAX_NONCES_PER_SESSION - 1
    ensures forall y :: y in Spared(bs, s) ==> x.nonce in at && y.nonce in at && at[x.nonce] < at[y.nonce]
  {
    var all := EntriesOf(bs, s);
    EntriesMeaning(bs, s);
    SparedAged(bs, s, at, clock);
    assert x in all && Spared(bs, s) == LastOf(all, MAX_NONCES_PER_SESSION - 1);
    hide Has, Ok, NoncesAged, Spared, EntriesOf;
    AgedCut(all, MAX_NONCES_PER_SESSION - 1, at, clock, x);
  }

  lemma AgedCut(all: seq<Pending>, k: nat, at: map<Nonce, nat>, clock: nat, x: Pending)
    requires Aged(all, at, clock) && x in all && x !in LastOf(all, k)
    ensures |LastOf(all, k)| == k
    ensures forall y :: y in LastOf(all, k) ==> x.nonce in at && y.nonce in at && at[x.nonce] < at[y.nonce]
  {
    var kept := LastOf(all, k);
    var off := |all| - |kept|;
    var i :| 0 <= i < |all| && all[i] == x;
    forall j | off <= j < |all|
      ensures all[j] in kept
    {
      assert kept[j - off] == all[j];
    }
    forall y | y in kept
      ensures y.nonce in at && at[x.nonce] < at[y.nonce]
    {
      var j :| 0 <= j < |kept| && kept[j] == y;
      assert all[off + j] == y;
    }
  }

  // Cutting to one bucket less drops the first.
  lemma FirstDropped(w: Buckets, t: Session, x: Pending)
    requires DistinctSessions(w) && |w| == MAX_NONCE_SESSIONS + 1
    requires Has(w, t, x) && !Has(w[1..], t, x)
    ensures w[0].session == t
    ensures forall u, y :: Has(w[1..], u, y) ==> exists k :: 0 < k < |w| && w[k].session == u
  {
    var b :| b in w && b.session == t && x in b.entries;
    var i :| 0 <= i < |w| && w[i] == b;
    forall k | 0 < k < |w|
      ensures w[k] in w[1..]
    {
      assert w[1..][k - 1] == w[k];
    }
    forall u, y | Has(w[1..], u, y)
      ensures exists k :: 0 < k < |w| && w[k].session == u
    {
      var c :| c in w[1..] && c.session == u && y in c.entries;
      var k :| 0 <= k < |w[1..]| && w[1..][k] == c;
      assert w[k + 1] == c;
    }
  }

  // Of another session only the bucket written longest ago goes, whole, and only when
  // the writer had none and the store is left full.
  lemma OtherLoss(bs: Buckets, s: Session, e: Pending, at: map<Session, nat>, clock: nat, t: Session, x: Pending)
    requires Ok(bs) && SessionsAged(bs, at, clock) && e.nonce !in Nonces(bs)
    requires t != s && Has(bs, t, x) && !Has(LastOf(Written(bs, s, e), MAX_NONCE_SESSIONS), t, x)
    ensures EntriesOf(bs, s) == [] && |Written(bs, s, e)| == MAX_NONCE_SESSIONS + 1
    ensures forall y :: !Has(LastOf(Written(bs, s, e), MAX_NONCE_SESSIONS), t, y)
    ensures forall u, y :: u != s && Has(LastOf(Written(bs, s, e), MAX_NONCE_SESSIONS), u, y)
              ==> t in at && u in at && at[t] < at[u]
  {
    var w := Written(bs, s, e);
    WrittenOk(bs, s, e);
    WrittenHas(bs, s, e);
    assert Has(w, t, x);
    WrittenSessionsAged(bs, s, e, at, clock);
    hide Written, Has, Unique, EntriesOf;
    assert |w| == MAX_NONCE_SESSIONS + 1;
    assert LastOf(w, MAX_NONCE_SESSIONS) == w[1..];
    FirstDropped(w, t, x);
    forall u, y | Has(w[1..], u, y)
      ensures u != t && (u != s ==> t in at && u in at && at[t] < at[u])
    {
      var k :| 0 < k < |w| && w[k].session == u;
      assert w[k] in w && w[0] in w;
    }
  }

  lemma {:induction false} NonceCount(es: seq<Pending>)
    requires DistinctNonces(es)
    ensures |set e | e in es :: e.nonce| == |es|
  {
    if es != [] {
      var front, x := es[..|es| - 1], es[|es| - 1];
      NonceCount(front);
      assert es == front + [x];
      assert (set e | e in es :: e.nonce) == (set e | e in front :: e.nonce) + {x.nonce};
    }
  }

  lemma {:induction false} SessionCount(bs: Buckets)
    requires DistinctSessions(bs)
    ensures |set b | b in bs :: b.session| == |bs|
  {
    if bs != [] {
      var front, x := bs[..|bs| - 1], bs[|bs| - 1];
      SessionCount(front);
      assert bs == front + [x];
      assert (set b | b in bs :: b.session) == (set b | b in front :: b.session) + {x.session};
    }
  }

  lemma MineCount(bs: Buckets, s: Session)
    requires Ok(bs)
    ensures |Mine(Flat(bs), s)| == |EntriesOf(bs, s)|
  {
    var es := EntriesOf(bs, s);
    EntriesMeaning(bs, s);
    assert es != [] ==> DistinctNonces(Bucket(s, es).entries);
    NonceCount(es);
    var ns := set e | e in es :: e.nonce;
    FlatMeaning(bs);
    hide Flat, Ok, Unique, DistinctNonces, EntriesOf, DistinctSessions;
    forall m | m in Mine(Flat(bs), s)
      ensures m in ns
    {
      assert Flat(bs)[m].entry in es;
    }
    forall m | m in ns
      ensures m in Mine(Flat(bs), s)
    {
      var e :| e in es && e.nonce == m;
      assert Has(bs, s, e);
    }
    assert Mine(Flat(bs), s) == ns;
  }

  lemma SessionsCount(bs: Buckets)
    requires Ok(bs)
    ensures |Sessions(Flat(bs))| == |bs|
  {
    SessionCount(bs);
    var ss := set b | b in bs :: b.session;
    forall t | t in ss
      ensures t in Sessions(Flat(bs))
    {
      var b :| b in bs && b.session == t;
      var e := b.entries[0];
      assert Has(bs, t, e);
      FlatAt(bs, t, e);
    }
    forall m | m in Flat(bs)
      ensures Flat(bs)[m].session in ss
    {
      var b :| b in bs && b.session == Flat(bs)[m].session;
    }
    hide Ok, Flat, Has;
    assert Sessions(Flat(bs)) == ss;
  }

  lemma FlatAt(bs: Buckets, s: Session, e: Pending)
    requires Ok(bs)
    ensures Has(bs, s, e) <==> e.nonce in Flat(bs) && Flat(bs)[e.nonce] == Held(s, e)
  {
    FlatMeaning(bs);
  }

  lemma FlatHas(bs: Buckets, m: Nonce)
    requires Ok(bs) && m in Flat(bs)
    ensures Has(bs, Flat(bs)[m].session, Flat(bs)[m].entry) && Flat(bs)[m].entry.nonce == m
  {
    FlatMeaning(bs);
  }

  // A live nonce that the write did not keep.
  ghost predicate LostLive(before: map<Nonce, Held>, after: map<Nonce, Held>, now: int, m: Nonce) {
    m in before && now < before[m].entry.expiresAt && m !in after
  }

  ghost predicate Sooner(at: map<nat, nat>, a: nat, b: nat) {
    a in at && b in at && at[a] < at[b]
  }

  // The writer loses a live nonce of its own only when it is left exactly at its cap,
  // and only one remembered before everything it keeps.
  ghost predicate OwnCost(before: map<Nonce, Held>, after: map<Nonce, Held>, now: int, s: Session, rememberedAt: map<Nonce, nat>) {
    forall m :: LostLive(before, after, now, m) && before[m].session == s ==>
      && |Mine(after, s)| == MAX_NONCES_PER_SESSION
      && forall k :: k in Mine(after, s) ==> Sooner(rememberedAt, m, k)
  }

  // Another session loses a live nonce only by losing all of them, as the one that
  // wrote longest ago, to a writer that held none, in a store left exactly at its cap.
  ghost predicate OthersCost(before: map<Nonce, Held>, after: map<Nonce, Held>, now: int, s: Session, writtenAt: map<Session, nat>) {
    forall m :: LostLive(before, after, now, m) && before[m].session != s ==>
      && Mine(after, before[m].session) == {}
      && (forall k :: k in Mine(before, s) ==> before[k].entry.expiresAt <= now)
      && |Sessions(after)| == MAX_NONCE_SESSIONS
      && forall t :: t in Sessions(after) && t != s ==> Sooner(writtenAt, before[m].session, t)
  }

  lemma LostHas(bs: Buckets, s: Session, n: Nonce, binding: Binding, now: int, m: Nonce)
    requires Ok(bs) && n !in Nonces(bs)
    requires LostLive(Flat(bs), Flat(Remember(bs, s, n, binding, now)), now, m)
    ensures var h := Flat(bs)[m];
      && h.entry.nonce == m
      && Has(Sweep(bs, now), h.session, h.entry)
      && !Has(Remember(bs, s, n, binding, now), h.session, h.entry)
  {
    hide Flat, Remember, Ok, Nonces;
    RememberOk(bs, s, n, binding, now);
    KeepHas(bs, (e: Pending) => now < e.expiresAt);
    FlatHas(bs, m);
    var h := Flat(bs)[m];
    FlatAt(Remember(bs, s, n, binding, now), h.session, h.entry);
    hide Has;
  }

  lemma RememberedBucket(bs: Buckets, s: Session, n: Nonce, binding: Binding, now: int)
    requires Ok(bs) && n !in Nonces(bs)
    ensures var r := Remember(bs, s, n, binding, now);
      && Ok(r)
      && EntriesOf(r, s) == Spared(Sweep(bs, now), s) + [Fresh(n, binding, now)]
      && forall x :: Has(r, s, x) <==> x in Spared(Sweep(bs, now), s) || x == Fresh(n, binding, now)
  {
    hide Ok, Has, Sweep, Without, Nonces;
    var r := Remember(bs, s, n, binding, now);
    RememberOk(bs, s, n, binding, now);
    EntriesMeaning(r, s) by { assert DistinctSessions(r); }
  }

  lemma OwnCostOf(bs: Buckets, s: Session, n: Nonce, binding: Binding, now: int, at: map<Nonce, nat>, clock: nat, m: Nonce)
    requires Ok(bs) && NoncesAged(bs, at, clock) && n !in Nonces(bs) && n !in at
    requires LostLive(Flat(bs), Flat(Remember(bs, s, n, binding, now)), now, m) && Flat(bs)[m].session == s
    ensures |Spared(Sweep(bs, now), s)| == MAX_NONCES_PER_SESSION - 1
    ensures m in at && at[m] < clock
    ensures forall y :: y in Spared(Sweep(bs, now), s) ==> y.nonce in at && at[m] < at[y.nonce]
  {
    var swept := Sweep(bs, now);
    var live := (e: Pending) => now < e.expiresAt;
    assert swept == Keep(bs, live);
    hide Flat, Remember, Ok, Nonces, Sweep, NoncesAged, EntriesOf, Keep, Has, Spared;
    var x := Flat(bs)[m].entry;
    KeepOk(bs, live);
    KeepNoncesAged(bs, live, at, clock);
    LostHas(bs, s, n, binding, now, m);
    RememberedBucket(bs, s, n, binding, now);
    OwnLoss(swept, s, at, clock, x);
    LossInAge(swept, s, at, clock, x);
  }

  // The writer's nonces after the write: its new one, and the entries it was spared.
  lemma MineAfter(bs: Buckets, s: Session, n: Nonce, binding: Binding, now: int)
    requires Ok(bs) && n !in Nonces(bs)
    ensures var after, spared := Flat(Remember(bs, s, n, binding, now)), Spared(Sweep(bs, now), s);
      && |Mine(after, s)| == |spared| + 1
      && forall k :: k in Mine(after, s) ==> k == n || (after[k].entry in spared && after[k].entry.nonce == k)
  {
    var r := Remember(bs, s, n, binding, now);
    assert Fresh(n, binding, now).nonce == n;
    hide Flat, Remember, Ok, Nonces, Sweep, EntriesOf, Has, Spared, Fresh;
    RememberedBucket(bs, s, n, binding, now);
    MineCount(r, s);
    forall k | k in Mine(Flat(r), s)
      ensures k == n || (Flat(r)[k].entry in Spared(Sweep(bs, now), s) && Flat(r)[k].entry.nonce == k)
    {
      FlatHas(r, k);
    }
  }

  lemma OwnCostHolds(bs: Buckets, s: Session, n: Nonce, binding: Binding, now: int, at: map<Nonce, nat>, clock: nat)
    requires Ok(bs) && NoncesAged(bs, at, clock) && n !in Nonces(bs) && n !in at
    ensures OwnCost(Flat(bs), Flat(Remember(bs, s, n, binding, now)), now, s, at[n := clock])
  {
    var before, after := Flat(bs), Flat(Remember(bs, s, n, binding, now));
    hide Flat, Remember, Ok, Nonces, Sweep, NoncesAged, EntriesOf, Has, Spared;
    MineAfter(bs, s, n, binding, now);
    forall m | LostLive(before, after, now, m) && before[m].session == s
      ensures |Mine(after, s)| == MAX_NONCES_PER_SESSION
      ensures forall k :: k in Mine(after, s) ==> Sooner(at[n := clock], m, k)
    {
      hide LostLive, Mine;
      OwnCostOf(bs, s, n, binding, now, at, clock, m);
    }
  }

  lemma LossInAge(bs: Buckets, s: Session, at: map<Nonce, nat>, clock: nat, x: Pending)
    requires Ok(bs) && NoncesAged(bs, at, clock) && Has(bs, s, x)
    ensures x.nonce in at && at[x.nonce] < clock
  {
    EntriesMeaning(bs, s);
    SparedAged(bs, s, at, clock);
  }

  lemma OthersCostOf(bs: Buckets, s: Session, n: Nonce, binding: Binding, now: int, at: map<Session, nat>, clock: nat, m: Nonce)
    requires Ok(bs) && SessionsAged(bs, at, clock) && n !in Nonces(bs)
    requires LostLive(Flat(bs), Flat(Remember(bs, s, n, binding, now)), now, m) && Flat(bs)[m].session != s
    ensures var t, r := Flat(bs)[m].session, Remember(bs, s, n, binding, now);
      && |r| == MAX_NONCE_SESSIONS
      && (forall y :: Has(bs, s, y) ==> y.expiresAt <= now)
      && (forall u, y :: Has(r, u, y) ==> u != t && (u != s ==> Sooner(at, t, u)))
  {
    var swept, r := Sweep(bs, now), Remember(bs, s, n, binding, now);
    var live := (e: Pending) => now < e.expiresAt;
    var e := Fresh(n, binding, now);
    assert swept == Keep(bs, live) && e.nonce == n && r == LastOf(Written(swept, s, e), MAX_NONCE_SESSIONS);
    hide Flat, Remember, Ok, Nonces, Sweep, EntriesOf, Keep, Has, SessionsAged, Written, Fresh;
    KeepOk(bs, live);
    SweepNonces(bs, now);
    KeepSessionsAged(bs, live, at, clock);
    LostHas(bs, s, n, binding, now, m);
    OtherLoss(swept, s, e, at, clock, Flat(bs)[m].session, Flat(bs)[m].entry);
    EntriesMeaning(swept, s) by { assert DistinctSessions(swept); }
    forall y | Has(bs, s, y)
      ensures y.expiresAt <= now
    {
      KeepHas(bs, live);
    }
  }

  lemma OthersCostHolds(bs: Buckets, s: Session, n: Nonce, binding: Binding, now: int, at: map<Session, nat>, clock: nat)
    requires Ok(bs) && SessionsAged(bs, at, clock) && n !in Nonces(bs)
    ensures OthersCost(Flat(bs), Flat(Remember(bs, s, n, binding, now)), now, s, at)
  {
    var r := Remember(bs, s, n, binding, now);
    var before, after := Flat(bs), Flat(r);
    hide Flat, Remember, Ok, Nonces, Has, SessionsAged, Sooner;
    RememberOk(bs, s, n, binding, now);
    SessionsCount(r);
    forall k | k in after
      ensures Has(r, after[k].session, after[k].entry)
    {
      FlatHas(r, k);
    }
    forall k | k in Mine(before, s)
      ensures Has(bs, s, before[k].entry)
    {
      FlatHas(bs, k);
    }
    forall m | LostLive(before, after, now, m) && before[m].session != s
      ensures Mine(after, before[m].session) == {}
      ensures forall k :: k in Mine(before, s) ==> before[k].entry.expiresAt <= now
      ensures |Sessions(after)| == MAX_NONCE_SESSIONS
      ensures forall t :: t in Sessions(after) && t != s ==> Sooner(at, before[m].session, t)
    {
      hide LostLive;
      OthersCostOf(bs, s, n, binding, now, at, clock, m);
    }
  }

  // The new nonce is held, and nothing else is new, changed or expired.
  ghost predicate OnlyAdds(before: map<Nonce, Held>, after: map<Nonce, Held>, now: int, n: Nonce, held: Held) {
    && n in after && after[n] == held
    && forall m :: m in after && m != n ==> m in before && after[m] == before[m] && now < before[m].entry.expiresAt
  }

  lemma OnlyAddsHolds(bs: Buckets, s: Session, n: Nonce, binding: Binding, now: int)
    requires Ok(bs) && n !in Nonces(bs)
    ensures OnlyAdds(Flat(bs), Flat(Remember(bs, s, n, binding, now)), now, n, Held(s, Fresh(n, binding, now)))
  {
    var r := Remember(bs, s, n, binding, now);
    assert Fresh(n, binding, now).nonce == n;
    hide Flat, Remember, Ok, Nonces, Has, Fresh, EntriesOf;
    RememberedBucket(bs, s, n, binding, now);
    FlatAt(r, s, Fresh(n, binding, now));
    forall m
    {
      RememberFlat(bs, s, n, binding, now, m);
    }
  }

  // The price of a nonce: remembering holds it, keeps every other live nonce as it
  // was, and loses only what the two caps force out.
  lemma RememberCosts(worlds: seq<World>, events: seq<Event>, i: nat)
    requires Run(worlds, events) && i < |events| && events[i].Remembers?
    ensures var e := events[i];
      var before, after := Flat(worlds[i].buckets), Flat(worlds[i + 1].buckets);
      && OnlyAdds(before, after, e.now, e.nonce, Held(e.session, Fresh(e.nonce, e.binding, e.now)))
      && OwnCost(before, after, e.now, e.session, worlds[i + 1].rememberedAt)
      && OthersCost(before, after, e.now, e.session, worlds[i].writtenAt)
  {
    var e, w := events[i], worlds[i];
    var bs := w.buckets;
    RunKeepsInv(worlds, events, i);
    NoncesAreFlat(bs);
    assert worlds[i + 1] == Step(w, e) && Allowed(w, e);
    hide Flat, Remember, Ok, Nonces, SessionsAged, NoncesAged, OnlyAdds, OwnCost, OthersCost, Has, Run, Fresh;
    OwnCostHolds(bs, e.session, e.nonce, e.binding, e.now, w.rememberedAt, w.clock);
    OthersCostHolds(bs, e.session, e.nonce, e.binding, e.now, w.writtenAt, w.clock);
    OnlyAddsHolds(bs, e.session, e.nonce, e.binding, e.now);
  }

  // A nonce spent next, within two minutes of being remembered, is answered as it was
  // remembered; and once only.
  lemma RememberedIsAnswered(worlds: seq<World>, events: seq<Event>, i: nat, s: Session, n: Nonce, binding: Binding, now: int, now': int)
    requires Run(worlds, events) && i + 1 < |events|
    requires events[i] == Remembers(s, n, binding, now) && events[i + 1] == Consumes(n, now')
    ensures Answer(worlds[i + 1], events[i + 1])
         == if now' < now + 120_000 then Some(Pending(n, binding, now + 120_000)) else None
    ensures n !in Flat(worlds[i + 2].buckets)
  {
    hide Flat, Remember, Consume, Ok, OwnCost, OthersCost, Ledger, Ordered;
    RememberCosts(worlds, events, i);
    RunKeepsInv(worlds, events, i + 1);
    ConsumeRefines(worlds[i + 1].buckets, n, now');
    assert worlds[i + 2] == Step(worlds[i + 1], events[i + 1]);
  }

  // ----- The store, with its index ------------------------------------------------------------

  ghost function Owners(bs: Buckets): map<Nonce, Session> {
    map n | n in Flat(bs) :: Flat(bs)[n].session
  }

  ghost function NoncesIn(es: seq<Pending>): set<Nonce> {
    set e | e in es :: e.nonce
  }

  ghost function DeadIn(es: seq<Pending>, now: int): set<Nonce> {
    set e | e in es && e.expiresAt <= now :: e.nonce
  }

  ghost function Dead(bs: Buckets, now: int): set<Nonce> {
    set b, e | b in bs && e in b.entries && e.expiresAt <= now :: e.nonce
  }

  lemma DeadMeaning(bs: Buckets, now: int, n: Nonce)
    requires Ok(bs)
    ensures n in Dead(bs, now) <==> n in Flat(bs) && Flat(bs)[n].entry.expiresAt <= now
  {
    if n in Dead(bs, now) {
      var b, e :| b in bs && e in b.entries && e.expiresAt <= now && e.nonce == n;
      assert Has(bs, b.session, e);
      FlatAt(bs, b.session, e);
    }
    if n in Flat(bs) && Flat(bs)[n].entry.expiresAt <= now {
      FlatHas(bs, n);
      hide Flat;
      var h := Flat(bs)[n];
      var b :| b in bs && b.session == h.session && h.entry in b.entries;
      assert h.entry.nonce in Dead(bs, now);
    }
  }

  lemma OwnersOfSweep(bs: Buckets, now: int)
    requires Ok(bs)
    ensures Owners(Sweep(bs, now)) == Owners(bs) - Dead(bs, now)
  {
    var live := (e: Pending) => now < e.expiresAt;
    assert Sweep(bs, now) == Keep(bs, live);
    hide Flat, Dead, Sweep, Ok, Keep;
    forall n
      ensures n in Flat(Sweep(bs, now)) <==> n in Flat(bs) && n !in Dead(bs, now)
      ensures n in Flat(Sweep(bs, now)) ==> Flat(Sweep(bs, now))[n] == Flat(bs)[n]
    {
      FlatOfKeep(bs, live, n);
      DeadMeaning(bs, now, n);
    }
    OwnersAre(bs, Sweep(bs, now), Dead(bs, now));
  }

  lemma RestHas(w: Buckets, s: Session, e: Pending)
    requires w != [] && DistinctSessions(w)
    ensures Has(w[1..], s, e) ==> Has(w, s, e) && s != w[0].session
    ensures Has(w, s, e) ==> if s == w[0].session then e in w[0].entries else Has(w[1..], s, e)
    ensures e in w[0].entries ==> Has(w, w[0].session, e)
  {
    var r := w[1..];
    assert w == [w[0]] + r;
    assert forall k :: 0 <= k < |r| ==> r[k] == w[k + 1];
    if Has(w, s, e) {
      var b :| b in w && b.session == s && e in b.entries;
      assert b == w[0] || b in r;
      if b in r {
        var k :| 0 <= k < |r| && r[k] == b;
      }
    }
  }

  lemma UniqueRest(w: Buckets)
    requires w != [] && Unique(w) && DistinctSessions(w)
    ensures Unique(w[1..]) && DistinctSessions(w[1..])
  {
    var r := w[1..];
    forall s, e | Has(r, s, e)
      ensures Has(w, s, e)
    {
      RestHas(w, s, e);
    }
    assert forall b :: b in r ==> b in w;
    hide Has, DistinctNonces;
  }

  lemma OwnersAre(w: Buckets, r: Buckets, gone: set<Nonce>)
    requires forall n :: n in Flat(r) <==> n in Flat(w) && n !in gone
    requires forall n :: n in Flat(r) ==> Flat(r)[n] == Flat(w)[n]
    ensures Owners(r) == Owners(w) - gone
  {
    hide Flat;
    assert Owners(r).Keys == (Owners(w) - gone).Keys;
  }

  // Dropping the first bucket drops its nonces.
  lemma OwnersOfRest(w: Buckets)
    requires w != [] && Unique(w) && DistinctSessions(w)
    ensures Unique(w[1..]) && DistinctSessions(w[1..])
    ensures Owners(w[1..]) == Owners(w) - NoncesIn(w[0].entries)
  {
    hide *;
    UniqueRest(w);
    forall n
      ensures n in Flat(w[1..]) <==> n in Flat(w) && n !in NoncesIn(w[0].entries)
      ensures n in Flat(w[1..]) ==> Flat(w[1..])[n] == Flat(w)[n]
    {
      RestFlat(w, n);
    }
    OwnersAre(w, w[1..], NoncesIn(w[0].entries));
  }

  lemma RestFlat(w: Buckets, n: Nonce)
    requires w != [] && Unique(w) && Unique(w[1..]) && DistinctSessions(w)
    ensures n in Flat(w[1..]) <==> n in Flat(w) && n !in NoncesIn(w[0].entries)
    ensures n in Flat(w[1..]) ==> Flat(w[1..])[n] == Flat(w)[n]
  {
    var r, es := w[1..], w[0].entries;
    FlatMeaning(w);
    FlatMeaning(r);
    hide Flat, Unique, Has, DistinctSessions;
    if n in Flat(r) {
      var h := Flat(r)[n];
      RestHas(w, h.session, h.entry);
    }
    if n in Flat(w) {
      var h := Flat(w)[n];
      RestHas(w, h.session, h.entry);
    }
    if n in NoncesIn(es) {
      var e :| e in es && e.nonce == n;
      RestHas(w, w[0].session, e);
    }
  }

  lemma SweepStep(all: Buckets, i: nat, now: int)
    requires i < |all|
    ensures Dead(all[..i + 1], now) == Dead(all[..i], now) + DeadIn(all[i].entries, now)
    ensures var live := Filter((e: Pending) => now < e.expiresAt, all[i].entries);
      Sweep(all[..i + 1], now) == Sweep(all[..i], now) + if live == [] then [] else [Bucket(all[i].session, live)]
  {
    assert all[..i + 1] == all[..i] + [all[i]];
    assert all[..i + 1][..i] == all[..i];
  }

  lemma RemovingTwice<K, V>(m: map<K, V>, a: set<K>, b: set<K>)
    ensures m - a - b == m - (a + b)
  {
  }

  lemma SweepStarts(all: Buckets, owner: map<Nonce, Session>, now: int)
    ensures Sweep(all[..0], now) == []
    ensures owner == owner - Dead(all[..0], now)
  {
    assert Dead(all[..0], now) == {};
  }

  lemma SweepEnds(all: Buckets, owner: map<Nonce, Session>, now: int)
    requires Ok(all) && owner == Owners(all)
    ensures Ok(Sweep(all, now))
    ensures Owners(Sweep(all, now)) == owner - Dead(all, now)
  {
    OwnersOfSweep(all, now);
    KeepOk(all, (e: Pending) => now < e.expiresAt);
  }

  // The nonces a write drops: the writer's oldest.
  ghost function Dropped(bs: Buckets, s: Session): set<Nonce> {
    var all := EntriesOf(bs, s);
    NoncesIn(all[..|all| - |LastOf(all, MAX_NONCES_PER_SESSION - 1)|])
  }

  lemma DroppedCut(all: seq<Pending>, k: nat, m: Nonce)
    requires DistinctNonces(all)
    ensures m in NoncesIn(all[..|all| - |LastOf(all, k)|])
       <==> exists x :: x in all && x.nonce == m && x !in LastOf(all, k)
  {
    var kept := LastOf(all, k);
    var off := |all| - |kept|;
    forall j | off <= j < |all|
      ensures all[j] in kept
    {
      assert kept[j - off] == all[j];
    }
    if m in NoncesIn(all[..off]) {
      var x :| x in all[..off] && x.nonce == m;
      var i :| 0 <= i < off && all[i] == x;
      forall j | 0 <= j < |kept|
        ensures kept[j] != x
      {
        assert kept[j] == all[off + j];
      }
    }
    forall x | x in all && x.nonce == m && x !in kept
      ensures m in NoncesIn(all[..off])
    {
      var i :| 0 <= i < |all| && all[i] == x;
      assert all[..off][i] == x;
    }
  }

  lemma DroppedMeaning(bs: Buckets, s: Session, m: Nonce)
    requires Ok(bs)
    ensures m in Dropped(bs, s) <==> m in Flat(bs) && Flat(bs)[m].session == s && Flat(bs)[m].entry !in Spared(bs, s)
  {
    var all := EntriesOf(bs, s);
    EntriesMeaning(bs, s);
    assert all != [] ==> DistinctNonces(Bucket(s, all).entries);
    DroppedCut(all, MAX_NONCES_PER_SESSION - 1, m);
    FlatMeaning(bs);
    hide Flat, Has, Unique, DistinctNonces, EntriesOf, NoncesIn;
    if m in Dropped(bs, s) {
      var x :| x in all && x.nonce == m && x !in Spared(bs, s);
      assert Has(bs, s, x);
    }
  }

  lemma WrittenFlat(bs: Buckets, s: Session, e: Pending, n: Nonce)
    requires Ok(bs) && e.nonce !in Nonces(bs)
    ensures var w := Written(bs, s, e);
      && (n in Flat(w) <==> n == e.nonce || (n in Flat(bs) && n !in Dropped(bs, s)))
      && (n in Flat(w) ==> Flat(w)[n].session == if n == e.nonce then s else Flat(bs)[n].session)
  {
    var w := Written(bs, s, e);
    WrittenOk(bs, s, e);
    WrittenHas(bs, s, e);
    DroppedMeaning(bs, s, n);
    EntriesMeaning(bs, s);
    NoncesAreFlat(bs);
    assert forall x :: x in Spared(bs, s) ==> Has(bs, s, x);
    FlatMeaning(w);
    hide Written, Flat, Has, Unique, Ok, EntriesOf, Spared, Dropped, Nonces;
    if n in Flat(w) {
      var h := Flat(w)[n];
      FlatAt(bs, h.session, h.entry);
    }
    if n in Flat(bs) {
      var h := Flat(bs)[n];
      FlatHas(bs, n);
    }
  }

  // Writing replaces the session's dropped nonces by the new one in the index.
  lemma OwnersOfWritten(bs: Buckets, s: Session, e: Pending)
    requires Ok(bs) && e.nonce !in Nonces(bs)
    ensures Owners(Written(bs, s, e)) == (Owners(bs) - Dropped(bs, s))[e.nonce := s]
  {
    hide Written, Flat, Ok, Dropped, Nonces;
    var w := Written(bs, s, e);
    forall n
      ensures n in Flat(w) <==> n == e.nonce || (n in Flat(bs) && n !in Dropped(bs, s))
      ensures n in Flat(w) ==> Flat(w)[n].session == if n == e.nonce then s else Flat(bs)[n].session
    {
      WrittenFlat(bs, s, e, n);
    }
    assert Owners(w).Keys == (Owners(bs) - Dropped(bs, s))[e.nonce := s].Keys;
  }

  // Everything a write relies on once the expired are gone.
  lemma WriteReady(bs: Buckets, s: Session, n: Nonce, binding: Binding, now: int)
    requires Ok(bs) && n !in Owners(bs)
    ensures var swept, e := Sweep(bs, now), Fresh(n, binding, now);
      var w := Written(swept, s, e);
      && Ok(swept) && Unique(w) && DistinctSessions(w) && |w| <= MAX_NONCE_SESSIONS + 1
      && Owners(w) == (Owners(swept) - Dropped(swept, s))[n := s]
      && Remember(bs, s, n, binding, now) == LastOf(w, MAX_NONCE_SESSIONS)
      && Ok(LastOf(w, MAX_NONCE_SESSIONS))
  {
    var swept, e := Sweep(bs, now), Fresh(n, binding, now);
    NoncesAreFlat(bs);
    KeepOk(bs, (x: Pending) => now < x.expiresAt);
    SweepNonces(bs, now);
    assert e.nonce == n && Ok(swept);
    assert n !in Nonces(bs);
    hide Ok, Flat, Nonces, Owners, Written, Sweep, Keep, Unique, DistinctSessions;
    WrittenOk(swept, s, e);
    OwnersOfWritten(swept, s, e);
    RememberOk(bs, s, n, binding, now);
  }

  function BucketIndex(bs: Buckets, s: Session): (i: nat)
    requires exists b :: b in bs && b.session == s
    ensures i < |bs| && bs[i].session == s
  {
    if bs[|bs| - 1].session == s then |bs| - 1
    else assert bs == bs[..|bs| - 1] + [bs[|bs| - 1]]; BucketIndex(bs[..|bs| - 1], s)
  }

  lemma HoldsNonce(bs: Buckets, k: nat, e: Pending)
    requires k < |bs| && e in bs[k].entries
    ensures Has(bs, bs[k].session, e)
  {
  }

  lemma OtherBucketLacks(bs: Buckets, i: nat, k: nat, n: Nonce)
    requires Ok(bs) && i < |bs| && k < |bs| && k != i && n in NoncesIn(bs[i].entries)
    ensures forall e :: e in bs[k].entries ==> e.nonce != n
  {
    var held :| held in bs[i].entries && held.nonce == n;
    HoldsNonce(bs, i, held);
    FlatAt(bs, bs[i].session, held);
    assert bs[k].session != bs[i].session;
    hide Ok, Flat, Has;
    forall e | e in bs[k].entries
      ensures e.nonce != n
    {
      HoldsNonce(bs, k, e);
      FlatAt(bs, bs[k].session, e);
    }
  }

  // Only the nonce's own bucket loses anything.
  lemma MappedInPlace(bs: Buckets, i: nat, n: Nonce)
    requires Ok(bs) && i < |bs| && n in NoncesIn(bs[i].entries)
    ensures var f := (x: Pending) => x.nonce != n;
      Mapped(bs, f) == bs[i := Bucket(bs[i].session, Filter(f, bs[i].entries))]
  {
    hide *;
    var f := (x: Pending) => x.nonce != n;
    MappedShape(bs, f);
    forall k | 0 <= k < |bs| && k != i
      ensures Filter(f, bs[k].entries) == bs[k].entries
    {
      OtherBucketLacks(bs, i, k, n);
      FilterAll(f, bs[k].entries);
    }
  }

  lemma DropEmptied(l: Buckets, y: Bucket, r: Buckets)
    requires forall b :: b in l || b in r ==> b.entries != []
    ensures Filter((b: Bucket) => b.entries != [], l + [y] + r) == if y.entries == [] then l + r else l + [y] + r
  {
    var f := (b: Bucket) => b.entries != [];
    FilterConcat(f, l + [y], r);
    FilterAppend(f, l, y);
    FilterAll(f, l);
    FilterAll(f, r);
    assert l + [] == l;
  }

  // Deleting a nonce from its own bucket is deleting it everywhere.
  lemma KeepInPlace(bs: Buckets, i: nat, n: Nonce)
    requires Ok(bs) && i < |bs| && n in NoncesIn(bs[i].entries)
    ensures var f := (x: Pending) => x.nonce != n;
      var rest := Filter(f, bs[i].entries);
      Keep(bs, f) == if rest == [] then bs[..i] + bs[i + 1..] else bs[i := Bucket(bs[i].session, rest)]
  {
    var f := (x: Pending) => x.nonce != n;
    var y := Bucket(bs[i].session, Filter(f, bs[i].entries));
    MappedInPlace(bs, i, n);
    assert forall b :: b in bs ==> b.entries != [];
    hide Ok, Mapped, NoncesIn, Filter;
    assert bs[i := y] == bs[..i] + [y] + bs[i + 1..];
    DropEmptied(bs[..i], y, bs[i + 1..]);
  }

  lemma KeepNothingLost(bs: Buckets, n: Nonce)
    requires Ok(bs) && n !in Flat(bs)
    ensures Keep(bs, (x: Pending) => x.nonce != n) == bs
  {
    var f := (x: Pending) => x.nonce != n;
    MappedShape(bs, f);
    forall k | 0 <= k < |bs|
      ensures Filter(f, bs[k].entries) == bs[k].entries
    {
      forall e | e in bs[k].entries
        ensures f(e)
      {
        HoldsNonce(bs, k, e);
        FlatAt(bs, bs[k].session, e);
      }
      FilterAll(f, bs[k].entries);
    }
    assert forall b :: b in bs ==> b.entries != [];
    hide Ok, Flat, Has;
    assert Mapped(bs, f) == bs;
    FilterAll((b: Bucket) => b.entries != [], bs);
  }

  // Where the index points is where the nonce is.
  lemma IndexPoints(bs: Buckets, n: Nonce)
    requires Ok(bs) && n in Flat(bs)
    ensures exists b :: b in bs && b.session == Flat(bs)[n].session
    ensures var i := BucketIndex(bs, Flat(bs)[n].session);
      n in NoncesIn(bs[i].entries) && FindIn(bs[i].entries, n) == Some(Flat(bs)[n].entry)
  {
    FlatHas(bs, n);
    var h := Flat(bs)[n];
    var b :| b in bs && b.session == h.session && h.entry in b.entries;
    var i := BucketIndex(bs, h.session);
    assert bs[i] == b;
    var found := FindIn(b.entries, n);
    HoldsNonce(bs, i, h.entry);
    HoldsNonce(bs, i, found.value);
    FlatAt(bs, h.session, found.value);
  }

  // Deletes the nonce from one bucket, and the bucket if that empties it.
  function RemoveAt(bs: Buckets, i: nat, n: Nonce): Buckets
    requires i < |bs|
  {
    var rest := Filter((x: Pending) => x.nonce != n, bs[i].entries);
    if rest == [] then bs[..i] + bs[i + 1..] else bs[i := Bucket(bs[i].session, rest)]
  }

  lemma ConsumeOwners(bs: Buckets, n: Nonce, now: int)
    requires Ok(bs)
    ensures Ok(Consume(bs, n, now).0) && Owners(Consume(bs, n, now).0) == Owners(bs) - {n}
    ensures n in Owners(bs) <==> n in Flat(bs)
    ensures n in Owners(bs) ==> Owners(bs)[n] == Flat(bs)[n].session
  {
    hide Ok, Flat, Consume;
    ConsumeRefines(bs, n, now);
    OwnersAre(bs, Consume(bs, n, now).0, {n});
  }

  // Spending through the index is spending.
  lemma ConsumeInPlace(bs: Buckets, n: Nonce, now: int)
    requires Ok(bs)
    ensures Ok(Consume(bs, n, now).0) && Owners(Consume(bs, n, now).0) == Owners(bs) - {n}
    ensures n !in Owners(bs) ==> Consume(bs, n, now) == (bs, None)
    ensures n in Owners(bs) ==>
      && (exists b :: b in bs && b.session == Owners(bs)[n])
      && var i := BucketIndex(bs, Owners(bs)[n]);
         var entry := FindIn(bs[i].entries, n);
         && Consume(bs, n, now).0 == RemoveAt(bs, i, n)
         && Consume(bs, n, now).1 == if entry.Some? && now < entry.value.expiresAt then entry else None
  {
    ConsumeOwners(bs, n, now);
    LookupMeaning(bs, n);
    hide Ok, Flat, Keep, Filter, Lookup, FindIn, Owners, BucketIndex, NoncesIn;
    if n in Owners(bs) {
      IndexPoints(bs, n);
      KeepInPlace(bs, BucketIndex(bs, Flat(bs)[n].session), n);
    } else {
      KeepNothingLost(bs, n);
    }
  }

  class PresenceNonceStore {
    var buckets: Buckets
    var owner: map<Nonce, Session>

    // The index names exactly the nonces held, and each one's own session.
    ghost predicate Valid()
      reads this
    {
      Ok(buckets) && owner == Owners(buckets)
    }

    constructor ()
      ensures Valid() && buckets == []
    {
      buckets, owner := [], map[];
    }

    method SweepBucket(es: seq<Pending>, now: int) returns (live: seq<Pending>)
      modifies this`owner
      ensures live == Filter((e: Pending) => now < e.expiresAt, es)
      ensures owner == old(owner) - DeadIn(es, now)
    {
      live := [];
      var k := 0;
      while k < |es|
        invariant 0 <= k <= |es|
        invariant live == Filter((e: Pending) => now < e.expiresAt, es[..k])
        invariant owner == old(owner) - DeadIn(es[..k], now)
      {
        assert es[..k + 1] == es[..k] + [es[k]] && es[..k + 1][..k] == es[..k];
        if now < es[k].expiresAt {
          live := live + [es[k]];
        } else {
          owner := owner - {es[k].nonce};
        }
        k := k + 1;
      }
      assert es[..|es|] == es;
    }

    method SweepExpired(now: int)
      requires Valid()
      modifies this
      ensures Valid() && buckets == Sweep(old(buckets), now)
    {
      var all := buckets;
      var kept: Buckets := [];
      var i := 0;
      SweepStarts(all, owner, now);
      SweepEnds(all, owner, now);
      hide Ok, Owners, Sweep, Dead, DeadIn, Filter;
      while i < |all|
        invariant 0 <= i <= |all|
        invariant kept == Sweep(all[..i], now)
        invariant owner == old(owner) - Dead(all[..i], now)
      {
        SweepStep(all, i, now);
        RemovingTwice(old(owner), Dead(all[..i], now), DeadIn(all[i].entries, now));
        var live := SweepBucket(all[i].entries, now);
        if live != [] {
          kept := kept + [Bucket(all[i].session, live)];
        }
        i := i + 1;
      }
      assert all[..|all|] == all;
      buckets := kept;
    }

    // Drops the session's oldest until there is room for one.
    method TrimBucket(bucket: seq<Pending>) returns (kept: seq<Pending>)
      modifies this`owner
      ensures kept == LastOf(bucket, MAX_NONCES_PER_SESSION - 1)
      ensures owner == old(owner) - NoncesIn(bucket[..|bucket| - |kept|])
    {
      var k := 0;
      NoncesInStep(bucket, 0);
      assert old(owner) - {} == old(owner);
      while |bucket| - k >= MAX_NONCES_PER_SESSION
        invariant k == 0 || (k <= |bucket| && |bucket| - k >= MAX_NONCES_PER_SESSION - 1)
        invariant owner == old(owner) - NoncesIn(bucket[..k])
      {
        hide NoncesIn;
        NoncesInStep(bucket, k);
        RemovingTwice(old(owner), NoncesIn(bucket[..k]), {bucket[k].nonce});
        owner := owner - {bucket[k].nonce};
        k := k + 1;
      }
      kept := bucket[k..];
    }

    // Forgets the bucket written longest ago.
    method ForgetStalest()
      requires buckets != [] && Unique(buckets) && DistinctSessions(buckets) && owner == Owners(buckets)
      modifies this
      ensures buckets == old(buckets)[1..]
      ensures Unique(buckets) && DistinctSessions(buckets) && owner == Owners(buckets)
    {
      OwnersOfRest(buckets);
      hide Unique, DistinctSessions, Owners;
      DeleteOwners(buckets[0].entries);
      buckets := buckets[1..];
    }

    method DeleteOwners(es: seq<Pending>)
      modifies this`owner
      ensures owner == old(owner) - NoncesIn(es)
    {
      var k := 0;
      NoncesInStep(es, 0);
      assert old(owner) - {} == old(owner);
      while k < |es|
        invariant 0 <= k <= |es|
        invariant owner == old(owner) - NoncesIn(es[..k])
      {
        hide NoncesIn;
        NoncesInStep(es, k);
        RemovingTwice(old(owner), NoncesIn(es[..k]), {es[k].nonce});
        owner := owner - {es[k].nonce};
        k := k + 1;
      }
      assert es[..|es|] == es;
    }

    // Re-inserts the session's bucket at the end, with the new nonce in it.
    method WriteBucket(s: Session, e: Pending)
      requires owner == Owners(buckets)
      modifies this
      ensures buckets == Written(old(buckets), s, e)
      ensures owner == (Owners(old(buckets)) - Dropped(old(buckets), s))[e.nonce := s]
    {
      hide Owners, Without, EntriesOf, NoncesIn, LastOf;
      var bucket := EntriesOf(buckets, s);
      buckets := Without(buckets, s);
      bucket := TrimBucket(bucket);
      buckets := buckets + [Bucket(s, bucket + [e])];
      owner := owner[e.nonce := s];
    }

    method EvictStalest()
      requires Unique(buckets) && DistinctSessions(buckets) && owner == Owners(buckets)
      requires |buckets| <= MAX_NONCE_SESSIONS + 1
      modifies this
      ensures buckets == LastOf(old(buckets), MAX_NONCE_SESSIONS) && owner == Owners(buckets)
    {
      hide Unique, DistinctSessions, Owners;
      while |buckets| > MAX_NONCE_SESSIONS
        invariant Unique(buckets) && DistinctSessions(buckets) && owner == Owners(buckets)
        invariant buckets == old(buckets) || buckets == LastOf(old(buckets), MAX_NONCE_SESSIONS)
      {
        ForgetStalest();
      }
    }

    method RememberNonce(s: Session, n: Nonce, binding: Binding, now: int)
      requires Valid() && n !in owner
      modifies this
      ensures Valid() && buckets == Remember(old(buckets), s, n, binding, now)
    {
      WriteReady(buckets, s, n, binding, now);
      assert Fresh(n, binding, now).nonce == n;
      hide Ok, Owners, Unique, DistinctSessions, Sweep, Written, Dropped, Fresh, LastOf, Remember;
      SweepExpired(now);
      WriteBucket(s, Fresh(n, binding, now));
      EvictStalest();
    }

    method ConsumeNonce(n: Nonce, now: int) returns (answer: Option<Pending>)
      requires Valid()
      modifies this
      ensures Valid() && buckets == Consume(old(buckets), n, now).0 && answer == Consume(old(buckets), n, now).1
    {
      ConsumeInPlace(buckets, n, now);
      hide Ok, Owners, Consume, BucketIndex, RemoveAt, FindIn;
      if n !in owner {
        return None;
      }
      var i := BucketIndex(buckets, owner[n]);
      var entry := FindIn(buckets[i].entries, n);
      owner := owner - {n};
      buckets := RemoveAt(buckets, i, n);
      answer := if entry.Some? && now < entry.value.expiresAt then entry else None;
    }
  }

  lemma NoncesInStep(es: seq<Pending>, k: nat)
    requires k <= |es|
    ensures NoncesIn(es[..0]) == {}
    ensures k < |es| ==> NoncesIn(es[..k + 1]) == NoncesIn(es[..k]) + {es[k].nonce}
  {
    if k < |es| {
      assert es[..k + 1] == es[..k] + [es[k]];
    }
  }
}
