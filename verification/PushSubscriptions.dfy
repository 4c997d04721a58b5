/**
 Push subscriptions: one row per (Burrow, delivery), replaced by endpoint and capped
 oldest first.
 */
module PushSubscriptions {
  import opened Common

  const MAX_PER_BURROW: nat := 32
  const MAX_TOTAL: nat := 256

  type BurrowId = nat
  type DeliveryId = nat
  type Endpoint = nat

  datatype Row = Row(burrowId: BurrowId, deliveryId: DeliveryId, endpoint: Endpoint, vapidPublicKey: nat, subscribedAt: int)

  // ----- The cap ------------------------------------------------------------------
  // Rows are told apart by position: two rows of a hand-edited file may be equal.

  predicate Counts(row: Row, of: Option<BurrowId>) {
    of.None? || row.burrowId == of.value
  }

  // How many of the first `n` rows are not dropped; of one Burrow, or of all.
  function Left(all: seq<Row>, of: Option<BurrowId>, dropped: set<nat>, n: nat): nat
    requires n <= |all|
  {
    if n == 0 then 0
    else
      var one := if n - 1 !in dropped && Counts(all[n - 1], of) then 1 else 0;
      Left(all, of, dropped, n - 1) + one
  }

  predicate OverCap(all: seq<Row>, dropped: set<nat>, b: BurrowId) {
    Left(all, None, dropped, |all|) > MAX_TOTAL || Left(all, Some(b), dropped, |all|) > MAX_PER_BURROW
  }

  function Age(all: seq<Row>): nat -> int {
    (i: nat) => if i < |all| then all[i].subscribedAt else 0
  }

  function Range(n: nat): seq<nat> {
    if n == 0 then [] else Range(n - 1) + [n - 1]
  }

  // All positions, oldest first; equal ages in file order.
  function ByAge(all: seq<Row>): seq<nat> {
    SortBy(Age(all), Range(|all|))
  }

  predicate Drops(all: seq<Row>, dropped: set<nat>, i: nat) {
    i < |all| && i != |all| - 1 && OverCap(all, dropped, all[i].burrowId)
  }

  // Going through the first `k` of `order`, drops every row found while its Burrow or
  // the file is over its cap, except the last row.
  function Dropped(all: seq<Row>, order: seq<nat>, k: nat): set<nat>
    requires k <= |order|
  {
    if k == 0 then {}
    else
      var dropped := Dropped(all, order, k - 1);
      if Drops(all, dropped, order[k - 1]) then dropped + {order[k - 1]} else dropped
  }

  function ToDrop(all: seq<Row>): set<nat> {
    if |all| <= MAX_PER_BURROW then {} else Dropped(all, ByAge(all), |ByAge(all)|)
  }

  // The rows not dropped, in file order.
  function Pick(all: seq<Row>, dropped: set<nat>, n: nat): seq<Row>
    requires n <= |all|
  {
    if n == 0 then []
    else Pick(all, dropped, n - 1) + if n - 1 in dropped then [] else [all[n - 1]]
  }

  function Cap(rows: seq<Row>, keep: Row): seq<Row> {
    var all := rows + [keep];
    Pick(all, ToDrop(all), |all|)
  }

  // ----- The order the rows are gone through ----------------------------------------

  lemma {:induction false} RangeMeaning(n: nat)
    ensures |Range(n)| == n && forall i :: 0 <= i < n ==> Range(n)[i] == i
  {
    if n > 0 {
      RangeMeaning(n - 1);
    }
  }

  lemma ByAgeMeaning(all: seq<Row>)
    ensures forall i: nat :: i in ByAge(all) <==> i < |all|
    ensures NoDup(ByAge(all)) && |ByAge(all)| == |all|
    ensures SortedBy(Age(all), ByAge(all))
  {
    var r := Range(|all|);
    RangeMeaning(|all|);
    forall i: nat
      ensures i in r <==> i < |all|
    {
      assert i < |all| ==> r[i] == i;
    }
    SortMembers(Age(all), r);
    SortNoDup(Age(all), r);
    SortSorts(Age(all), r);
  }

  // ----- What the cap keeps ---------------------------------------------------------

  // Dropping one more row lowers its own counts by one and no other.
  lemma {:induction false} LeftAfterDrop(all: seq<Row>, of: Option<BurrowId>, dropped: set<nat>, i: nat, n: nat)
    requires n <= |all| && i < |all| && i !in dropped
    ensures Left(all, of, dropped + {i}, n) == Left(all, of, dropped, n) - if i < n && Counts(all[i], of) then 1 else 0
  {
    if n > 0 {
      LeftAfterDrop(all, of, dropped, i, n - 1);
    }
  }

  lemma {:induction false} LeftMonotone(all: seq<Row>, of: Option<BurrowId>, fewer: set<nat>, more: set<nat>, n: nat)
    requires n <= |all| && fewer <= more
    ensures Left(all, of, more, n) <= Left(all, of, fewer, n)
  {
    if n > 0 {
      LeftMonotone(all, of, fewer, more, n - 1);
    }
  }

  lemma {:induction false} DroppedGrows(all: seq<Row>, order: seq<nat>, j: nat, k: nat)
    requires j <= k <= |order|
    ensures Dropped(all, order, j) <= Dropped(all, order, k)
    decreases k
  {
    if j < k {
      DroppedGrows(all, order, j, k - 1);
    }
  }

  // Only rows gone through are dropped, and never the last.
  lemma {:induction false} DroppedAreEarlier(all: seq<Row>, order: seq<nat>, k: nat, i: nat)
    requires k <= |order| && i in Dropped(all, order, k)
    ensures exists j :: 0 <= j < k && order[j] == i
    ensures i < |all| - 1
  {
    if k > 0 && i in Dropped(all, order, k - 1) {
      DroppedAreEarlier(all, order, k - 1, i);
    }
  }

  // A row is dropped exactly when it is found over a cap as it is reached.
  lemma {:induction false} DropDecided(all: seq<Row>, order: seq<nat>, j: nat, k: nat)
    requires NoDup(order) && j < k <= |order|
    ensures order[j] in Dropped(all, order, k) <==> Drops(all, Dropped(all, order, j), order[j])
    decreases k
  {
    if k == j + 1 {
      if order[j] in Dropped(all, order, j) {
        DroppedAreEarlier(all, order, j, order[j]);
      }
    } else {
      DropDecided(all, order, j, k - 1);
    }
  }

  // Once a Burrow and the file are within their caps they stay so.
  lemma OverCapShrinks(all: seq<Row>, fewer: set<nat>, more: set<nat>, b: BurrowId)
    requires fewer <= more && OverCap(all, more, b)
    ensures OverCap(all, fewer, b)
  {
    LeftMonotone(all, None, fewer, more, |all|);
    LeftMonotone(all, Some(b), fewer, more, |all|);
  }

  lemma {:induction false} LeftFew(all: seq<Row>, of: Option<BurrowId>, dropped: set<nat>, n: nat)
    requires n <= |all|
    requires forall i: nat :: i < n && i < |all| - 1 && Counts(all[i], of) ==> i in dropped
    ensures Left(all, of, dropped, n) <= if 0 < n == |all| then 1 else 0
  {
    if n > 0 {
      LeftFew(all, of, dropped, n - 1);
    }
  }

  lemma {:induction false} LeftAtMost(all: seq<Row>, of: Option<BurrowId>, dropped: set<nat>, n: nat)
    requires n <= |all|
    ensures Left(all, of, dropped, n) <= n
  {
    if n > 0 {
      LeftAtMost(all, of, dropped, n - 1);
    }
  }

  // Nobody is over a cap afterwards: whoever still were would have lost every row but
  // the last.
  lemma CapsHold(all: seq<Row>, b: BurrowId)
    ensures !OverCap(all, ToDrop(all), b)
  {
    var order := ByAge(all);
    var d := ToDrop(all);
    ByAgeMeaning(all);
    if |all| <= MAX_PER_BURROW {
      LeftAtMost(all, None, {}, |all|);
      LeftAtMost(all, Some(b), {}, |all|);
    } else {
      forall i: nat | i < |all| - 1 && OverCap(all, d, all[i].burrowId)
        ensures i in d
      {
        assert i in order;
        var j :| 0 <= j < |order| && order[j] == i;
        DropDecided(all, order, j, |order|);
        DroppedGrows(all, order, j, |order|);
        OverCapShrinks(all, Dropped(all, order, j), d, all[i].burrowId);
      }
      if Left(all, None, d, |all|) > MAX_TOTAL {
        LeftFew(all, None, d, |all|);
      }
      if Left(all, Some(b), d, |all|) > MAX_PER_BURROW {
        LeftFew(all, Some(b), d, |all|);
      }
    }
  }

  // A row dropped was over a cap in the whole file.
  lemma DroppedWasOver(all: seq<Row>, i: nat)
    requires i in ToDrop(all)
    ensures i < |all| - 1 && OverCap(all, {}, all[i].burrowId)
  {
    var order := ByAge(all);
    ByAgeMeaning(all);
    DroppedAreEarlier(all, order, |order|, i);
    var j :| 0 <= j < |order| && order[j] == i;
    DropDecided(all, order, j, |order|);
    OverCapShrinks(all, {}, Dropped(all, order, j), all[i].burrowId);
  }

  // With the file within its total, no Burrow is cut below its own cap.
  lemma {:induction false} CutNoFurther(all: seq<Row>, order: seq<nat>, k: nat, b: BurrowId)
    requires k <= |order| && NoDup(order) && Left(all, None, {}, |all|) <= MAX_TOTAL
    ensures var before, after := Left(all, Some(b), {}, |all|), Left(all, Some(b), Dropped(all, order, k), |all|);
      after == before || after >= MAX_PER_BURROW
  {
    if k > 0 {
      CutNoFurther(all, order, k - 1, b);
      var d, i := Dropped(all, order, k - 1), order[k - 1];
      LeftMonotone(all, None, {}, d, |all|);
      if Drops(all, d, i) {
        if i in d {
          DroppedAreEarlier(all, order, k - 1, i);
        } else {
          LeftAfterDrop(all, Some(b), d, i, |all|);
        }
      }
    }
  }

  // Within a Burrow the oldest go first.
  lemma OldestGoFirst(all: seq<Row>, gone: nat, kept: nat)
    requires gone in ToDrop(all) && kept !in ToDrop(all) && kept < |all| - 1
    ensures gone < |all|
    ensures all[gone].burrowId == all[kept].burrowId ==> all[gone].subscribedAt <= all[kept].subscribedAt
  {
    var order := ByAge(all);
    ByAgeMeaning(all);
    DroppedAreEarlier(all, order, |order|, gone);
    var g :| 0 <= g < |order| && order[g] == gone;
    assert kept in order;
    var k :| 0 <= k < |order| && order[k] == kept;
    DropDecided(all, order, g, |order|);
    DropDecided(all, order, k, |order|);
    if all[gone].burrowId == all[kept].burrowId && k < g {
      DroppedGrows(all, order, k, g);
      OverCapShrinks(all, Dropped(all, order, k), Dropped(all, order, g), all[gone].burrowId);
    } else if g < k {
      assert Age(all)(order[g]) <= Age(all)(order[k]);
    }
  }

  // ----- The kept rows as a sequence --------------------------------------------------

  // The positions not dropped, in order.
  function Survivors(dropped: set<nat>, n: nat): seq<nat> {
    if n == 0 then []
    else Survivors(dropped, n - 1) + if n - 1 in dropped then [] else [n - 1]
  }

  ghost predicate Embeds(at: seq<nat>, kept: seq<Row>, all: seq<Row>) {
    && |at| == |kept|
    && (forall j :: 0 <= j < |at| ==> at[j] < |all| && kept[j] == all[at[j]])
    && forall i, j :: 0 <= i < j < |at| ==> at[i] < at[j]
  }

  lemma {:induction false} PickEmbeds(all: seq<Row>, dropped: set<nat>, n: nat)
    requires n <= |all|
    ensures Embeds(Survivors(dropped, n), Pick(all, dropped, n), all)
    ensures forall i: nat :: i in Survivors(dropped, n) <==> i < n && i !in dropped
  {
    if n > 0 {
      PickEmbeds(all, dropped, n - 1);
      var prev := Survivors(dropped, n - 1);
      forall j | 0 <= j < |prev|
        ensures prev[j] < n - 1
      {
        assert prev[j] in prev;
      }
    }
  }

  function OfBurrow(rows: seq<Row>, b: BurrowId): seq<Row> {
    Filter((r: Row) => r.burrowId == b, rows)
  }

  lemma {:induction false} PickCounts(all: seq<Row>, dropped: set<nat>, n: nat, b: BurrowId)
    requires n <= |all|
    ensures |Pick(all, dropped, n)| == Left(all, None, dropped, n)
    ensures |OfBurrow(Pick(all, dropped, n), b)| == Left(all, Some(b), dropped, n)
  {
    if n > 0 {
      PickCounts(all, dropped, n - 1, b);
      var front := Pick(all, dropped, n - 1);
      assert front + [] == front;
      FilterAppend((r: Row) => r.burrowId == b, front, all[n - 1]);
    }
  }

  lemma {:induction false} PickAll(all: seq<Row>, n: nat)
    requires n <= |all|
    ensures Pick(all, {}, n) == all[..n]
  {
    if n > 0 {
      PickAll(all, n - 1);
    }
  }

  // Of one Burrow no kept row, but for the last of the file, is older than one gone.
  ghost predicate NoneOlderThanGone(at: seq<nat>, all: seq<Row>) {
    forall gone: nat, left: nat ::
      gone < |all| && gone !in at && left in at && left < |all| - 1 && all[gone].burrowId == all[left].burrowId
      ==> all[gone].subscribedAt <= all[left].subscribedAt
  }

  // What the cap leaves: rows of the file in their order, the new row last among
  // them, both caps met, and of one Burrow none left, but for the new row, that is
  // older than one gone.
  lemma CapKeeps(rows: seq<Row>, keep: Row) returns (at: seq<nat>)
    ensures Embeds(at, Cap(rows, keep), rows + [keep])
    ensures 0 < |at| && at[|at| - 1] == |rows|
    ensures |Cap(rows, keep)| <= MAX_TOTAL && forall b :: |OfBurrow(Cap(rows, keep), b)| <= MAX_PER_BURROW
    ensures NoneOlderThanGone(at, rows + [keep])
  {
    var all := rows + [keep];
    var d := ToDrop(all);
    at := Survivors(d, |all|);
    PickEmbeds(all, d, |all|);
    LastStays(all);
    CapCounts(all, 0);
    forall b
      ensures |OfBurrow(Cap(rows, keep), b)| <= MAX_PER_BURROW
    {
      CapCounts(all, b);
    }
    hide ToDrop, Embeds, Pick, Survivors;
    forall gone: nat, left: nat | gone < |all| && gone !in at && left in at && left < |all| - 1
        && all[gone].burrowId == all[left].burrowId
      ensures all[gone].subscribedAt <= all[left].subscribedAt
    {
      OldestGoFirst(all, gone, left);
    }
  }

  // Nothing goes that need not: nothing at all when both caps were met, and while the
  // file's total was met each Burrow is cut to exactly its cap.
  lemma CapDropsOnlyExcess(rows: seq<Row>, keep: Row)
    requires |rows| < MAX_TOTAL
    ensures var all, kept := rows + [keep], Cap(rows, keep);
      && ((forall b :: |OfBurrow(all, b)| <= MAX_PER_BURROW) ==> kept == all)
      && forall b ::
           |OfBurrow(kept, b)| == if |OfBurrow(all, b)| <= MAX_PER_BURROW then |OfBurrow(all, b)| else MAX_PER_BURROW
  {
    var all := rows + [keep];
    if forall b :: |OfBurrow(all, b)| <= MAX_PER_BURROW {
      NothingDropped(all);
      PickAll(all, |all|);
    }
    forall b
      ensures |OfBurrow(Cap(rows, keep), b)|
           == if |OfBurrow(all, b)| <= MAX_PER_BURROW then |OfBurrow(all, b)| else MAX_PER_BURROW
    {
      CapCounts(all, b);
    }
  }

  lemma LastStays(all: seq<Row>)
    requires all != []
    ensures |all| - 1 !in ToDrop(all)
    ensures var at := Survivors(ToDrop(all), |all|); 0 < |at| && at[|at| - 1] == |all| - 1
  {
    if |all| - 1 in ToDrop(all) {
      DroppedWasOver(all, |all| - 1);
    }
  }

  lemma CapCounts(all: seq<Row>, b: BurrowId)
    ensures var kept := Pick(all, ToDrop(all), |all|);
      && |kept| <= MAX_TOTAL && |OfBurrow(kept, b)| <= MAX_PER_BURROW
      && (|all| <= MAX_TOTAL ==>
            |OfBurrow(kept, b)| == if |OfBurrow(all, b)| <= MAX_PER_BURROW then |OfBurrow(all, b)| else MAX_PER_BURROW)
  {
    var d, order := ToDrop(all), ByAge(all);
    CapsHold(all, b);
    PickCounts(all, d, |all|, b);
    PickCounts(all, {}, |all|, b);
    PickAll(all, |all|);
    assert all[..|all|] == all;
    ByAgeMeaning(all);
    if MAX_PER_BURROW < |all| <= MAX_TOTAL {
      CutNoFurther(all, order, |order|, b);
      LeftMonotone(all, Some(b), {}, d, |all|);
    }
  }

  lemma NothingDropped(all: seq<Row>)
    requires |all| <= MAX_TOTAL && forall b :: |OfBurrow(all, b)| <= MAX_PER_BURROW
    ensures ToDrop(all) == {}
  {
    PickAll(all, |all|);
    assert all[..|all|] == all;
    forall i | i in ToDrop(all)
      ensures false
    {
      DroppedWasOver(all, i);
      PickCounts(all, {}, |all|, all[i].burrowId);
    }
  }

  // ----- Exactly which rows the cap drops --------------------------------------------

  // One row is older than another, or as old and ahead of it in the file.
  predicate Older(all: seq<Row>, j: nat, i: nat) {
    && j < |all| && i < |all|
    && (all[j].subscribedAt < all[i].subscribedAt || (all[j].subscribedAt == all[i].subscribedAt && j < i))
  }

  ghost predicate OldestFirst(all: seq<Row>, order: seq<nat>) {
    forall g, k :: 0 <= g < k < |order| ==> Older(all, order[g], order[k])
  }

  lemma {:induction false} InsertOldestFirst(all: seq<Row>, x: nat, order: seq<nat>)
    requires OldestFirst(all, order) && x < |all| && forall k :: 0 <= k < |order| ==> order[k] < x
    ensures OldestFirst(all, InsertBy(Age(all), x, order))
  {
    if order != [] && Age(all)(order[|order| - 1]) > Age(all)(x) {
      var front, last := order[..|order| - 1], order[|order| - 1];
      InsertOldestFirst(all, x, front);
      InsertMultiset(Age(all), x, front);
      var r := InsertBy(Age(all), x, front);
      forall g | 0 <= g < |r|
        ensures Older(all, r[g], last)
      {
        assert r[g] in multiset(r);
        if r[g] != x {
          assert r[g] in front;
          var k :| 0 <= k < |front| && front[k] == r[g];
          assert Older(all, order[k], order[|order| - 1]);
        }
      }
    } else {
      forall g | 0 <= g < |order|
        ensures Older(all, order[g], x)
      {
        assert g < |order| - 1 ==> Older(all, order[g], order[|order| - 1]);
      }
    }
  }

  lemma {:induction false} ByAgeIsOldestFirst(all: seq<Row>, n: nat)
    requires n <= |all|
    ensures OldestFirst(all, SortBy(Age(all), Range(n)))
  {
    if n > 0 {
      ByAgeIsOldestFirst(all, n - 1);
      RangeMeaning(n - 1);
      SortMembers(Age(all), Range(n - 1));
      assert Range(n)[..n - 1] == Range(n - 1);
      var before := SortBy(Age(all), Range(n - 1));
      forall k | 0 <= k < |before|
        ensures before[k] < n - 1
      {
        assert before[k] in before;
      }
      InsertOldestFirst(all, n - 1, SortBy(Age(all), Range(n - 1)));
    }
  }

  // The rows not gone: of the file, or of one Burrow.
  ghost function Remaining(all: seq<Row>, gone: set<nat>, of: Option<BurrowId>): set<nat> {
    set i: nat | i < |all| && i !in gone && (of.None? || all[i].burrowId == of.value)
  }

  ghost function RemainingTo(all: seq<Row>, gone: set<nat>, of: Option<BurrowId>, n: nat): set<nat>
    requires n <= |all|
  {
    set i: nat | i < n && i !in gone && (of.None? || all[i].burrowId == of.value)
  }

  lemma {:induction false} LeftIsRemaining(all: seq<Row>, gone: set<nat>, of: Option<BurrowId>, n: nat)
    requires n <= |all|
    ensures Left(all, of, gone, n) == |RemainingTo(all, gone, of, n)|
  {
    if n == 0 {
      assert RemainingTo(all, gone, of, 0) == {};
    } else {
      LeftIsRemaining(all, gone, of, n - 1);
      var front := RemainingTo(all, gone, of, n - 1);
      if n - 1 !in gone && (of.None? || all[n - 1].burrowId == of.value) {
        assert RemainingTo(all, gone, of, n) == front + {n - 1};
      } else {
        assert RemainingTo(all, gone, of, n) == front;
      }
    }
  }

  // With some rows gone there are still too many, in all or of one Burrow.
  ghost predicate TooMany(all: seq<Row>, gone: set<nat>, b: BurrowId) {
    |Remaining(all, gone, None)| > 256 || |Remaining(all, gone, Some(b))| > 32
  }

  lemma OverCapIsTooMany(all: seq<Row>, gone: set<nat>, b: BurrowId)
    ensures OverCap(all, gone, b) == TooMany(all, gone, b)
  {
    LeftIsRemaining(all, gone, None, |all|);
    LeftIsRemaining(all, gone, Some(b), |all|);
    assert RemainingTo(all, gone, None, |all|) == Remaining(all, gone, None);
    assert RemainingTo(all, gone, Some(b), |all|) == Remaining(all, gone, Some(b));
  }

  // The older ones of the rows gone.
  ghost function OlderGone(all: seq<Row>, gone: set<nat>, i: nat): set<nat> {
    set j | j in gone && Older(all, j, i)
  }

  lemma DroppedEarlier(all: seq<Row>, order: seq<nat>, k: nat, j: nat)
    requires NoDup(order) && OldestFirst(all, order) && k < |order|
    requires j in Dropped(all, order, |order|) && Older(all, j, order[k])
    ensures j in Dropped(all, order, k)
  {
    hide Drops, Dropped;
    DroppedAreEarlier(all, order, |order|, j);
    var g :| 0 <= g < |order| && order[g] == j;
    assert g < k;
    DropDecided(all, order, g, |order|);
    DropDecided(all, order, g, k);
  }

  lemma DroppedByThen(all: seq<Row>, order: seq<nat>, k: nat)
    requires NoDup(order) && OldestFirst(all, order) && k < |order|
    ensures Dropped(all, order, k) == OlderGone(all, Dropped(all, order, |order|), order[k])
  {
    hide Dropped;
    DroppedGrows(all, order, k, |order|);
    forall j | j in Dropped(all, order, k)
      ensures Older(all, j, order[k])
    {
      DroppedAreEarlier(all, order, k, j);
    }
    forall j | j in Dropped(all, order, |order|) && Older(all, j, order[k])
      ensures j in Dropped(all, order, k)
    {
      DroppedEarlier(all, order, k, j);
    }
  }

  // A row is gone exactly when, with the older ones of those gone away, there are still too
  // many rows in the file or of its Burrow; but the new one stays whatever its age.
  ghost predicate CutExactly(all: seq<Row>, gone: set<nat>) {
    forall i: nat :: i in gone <==> i < |all| - 1 && TooMany(all, OlderGone(all, gone, i), all[i].burrowId)
  }

  lemma FewAreNotTooMany(all: seq<Row>, gone: set<nat>, b: BurrowId)
    requires |all| <= 32
    ensures !TooMany(all, gone, b)
  {
    LeftAtMost(all, None, gone, |all|);
    LeftAtMost(all, Some(b), gone, |all|);
    OverCapIsTooMany(all, gone, b);
  }

  lemma CapCutsExactly(all: seq<Row>)
    ensures CutExactly(all, ToDrop(all))
  {
    var order, gone := ByAge(all), ToDrop(all);
    ByAgeMeaning(all);
    ByAgeIsOldestFirst(all, |all|);
    forall i: nat
      ensures i in gone <==> i < |all| - 1 && TooMany(all, OlderGone(all, gone, i), all[i].burrowId)
    {
      hide ByAge, TooMany, OldestFirst, OlderGone, SortedBy;
      if |all| <= 32 {
        if i < |all| { FewAreNotTooMany(all, OlderGone(all, gone, i), all[i].burrowId); }
      } else if i < |all| {
        assert i in order;
        var k :| 0 <= k < |order| && order[k] == i;
        DropDecided(all, order, k, |order|);
        DroppedByThen(all, order, k);
        OverCapIsTooMany(all, Dropped(all, order, k), all[i].burrowId);
      } else if i in gone {
        DroppedAreEarlier(all, order, |order|, i);
      }
    }
  }

  // What the cap leaves is, in order, exactly what is not gone.
  lemma CapDecides(rows: seq<Row>, keep: Row) returns (gone: set<nat>, at: seq<nat>)
    ensures CutExactly(rows + [keep], gone)
    ensures Embeds(at, Cap(rows, keep), rows + [keep])
    ensures forall i: nat :: i in at <==> i <= |rows| && i !in gone
  {
    var all := rows + [keep];
    gone := ToDrop(all);
    at := Survivors(gone, |all|);
    CapCutsExactly(all);
    PickEmbeds(all, gone, |all|);
  }

  // ----- Registering ------------------------------------------------------------------

  // A file that is absent, or whose content is not an array, lists nothing; a row that
  // is not a subscription is passed over.
  datatype Entry = Good(row: Row) | Malformed
  datatype File = NoRows | Rows(entries: seq<Entry>)

  // What a mutation reads: `enrolled` is absent when burrows.json is.
  function Listed(file: File, enrolled: Option<set<BurrowId>>): seq<Row> {
    if file.NoRows? then [] else Live(file.entries, enrolled)
  }

  function Live(entries: seq<Entry>, enrolled: Option<set<BurrowId>>): seq<Row> {
    if entries == [] then []
    else
      var e := entries[|entries| - 1];
      var last := if e.Good? && (enrolled.None? || e.row.burrowId in enrolled.value) then [e.row] else [];
      Live(entries[..|entries| - 1], enrolled) + last
  }

  function Written(rows: seq<Row>): File {
    Rows(seq(|rows|, (i: int) requires 0 <= i < |rows| => Good(rows[i])))
  }

  datatype Record = Record(burrowId: BurrowId, deliveryId: DeliveryId, endpoint: Endpoint, vapidPublicKey: nat)

  function Stamped(r: Record, now: int): Row {
    Row(r.burrowId, r.deliveryId, r.endpoint, r.vapidPublicKey, now)
  }

  // Addresses this delivery is moving off.
  function Replaced(all: seq<Row>, r: Record): set<Endpoint> {
    set x | x in all && x.deliveryId == r.deliveryId && x.endpoint != r.endpoint :: x.endpoint
  }

  function Survives(r: Record, replaced: set<Endpoint>): Row -> bool {
    (x: Row) => !(x.burrowId == r.burrowId && x.deliveryId == r.deliveryId) && x.endpoint !in replaced
  }

  function Upserted(all: seq<Row>, r: Record, now: int): seq<Row> {
    Cap(Filter(Survives(r, Replaced(all, r)), all), Stamped(r, now))
  }

  // The Burrows carrying the presented endpoint and key, each once, in file order.
  function EndpointBurrows(kept: seq<Row>, r: Record): seq<BurrowId> {
    if kept == [] then []
    else
      var rest, x := EndpointBurrows(kept[..|kept| - 1], r), kept[|kept| - 1];
      if x.endpoint == r.endpoint && x.vapidPublicKey == r.vapidPublicKey && x.burrowId !in rest
      then rest + [x.burrowId] else rest
  }

  ghost predicate DistinctKeys(rows: seq<Row>) {
    forall i, j :: 0 <= i < j < |rows| ==>
      !(rows[i].burrowId == rows[j].burrowId && rows[i].deliveryId == rows[j].deliveryId)
  }

  lemma CapMembers(rows: seq<Row>, keep: Row)
    ensures Cap(rows, keep) != [] && Cap(rows, keep)[|Cap(rows, keep)| - 1] == keep
    ensures forall x :: x in Cap(rows, keep)[..|Cap(rows, keep)| - 1] ==> x in rows
  {
    var kept := Cap(rows, keep);
    var at := CapKeeps(rows, keep);
    forall j | 0 <= j < |kept| - 1
      ensures kept[j] in rows
    {
      assert at[j] < at[|at| - 1];
    }
  }

  // After registering, every row of the delivery carries the presented endpoint, no
  // row carries one it moved off, and the new row is the only one with its key.
  lemma UpsertMoves(all: seq<Row>, r: Record, now: int)
    ensures var kept := Upserted(all, r, now);
      && kept != [] && kept[|kept| - 1] == Stamped(r, now)
      && (forall x :: x in kept && x.deliveryId == r.deliveryId ==> x.endpoint == r.endpoint)
      && (forall x, y :: x in all && x.deliveryId == r.deliveryId && x.endpoint != r.endpoint && y in kept
            ==> y.endpoint != x.endpoint)
      && (forall j :: 0 <= j < |kept| - 1 ==>
            kept[j] in all && !(kept[j].burrowId == r.burrowId && kept[j].deliveryId == r.deliveryId))
  {
    var f := Survives(r, Replaced(all, r));
    var rows := Filter(f, all);
    var kept := Upserted(all, r, now);
    FilterMembers(f, all);
    CapMembers(rows, Stamped(r, now));
    assert kept == kept[..|kept| - 1] + [Stamped(r, now)];
    forall j | 0 <= j < |kept| - 1
      ensures kept[j] in rows
    {
      assert kept[..|kept| - 1][j] == kept[j];
    }
    assert forall x :: x in kept ==> x in rows || x == Stamped(r, now);
  }

  // Keys stay unique.
  lemma UpsertKeepsKeys(all: seq<Row>, r: Record, now: int)
    requires DistinctKeys(all)
    ensures DistinctKeys(Upserted(all, r, now))
  {
    var f := Survives(r, Replaced(all, r));
    var rows, kept := Filter(f, all), Upserted(all, r, now);
    FilterMembers(f, all);
    FilterPairwise(f, (x: Row, y: Row) => !(x.burrowId == y.burrowId && x.deliveryId == y.deliveryId), all);
    var at := CapKeeps(rows, Stamped(r, now));
    hide Cap, Survives, Filter;
    assert forall i :: 0 <= i < |rows| ==> rows[i] in rows;
    assert DistinctKeys(rows + [Stamped(r, now)]) by {
      forall i | 0 <= i < |rows|
        ensures !(rows[i].burrowId == r.burrowId && rows[i].deliveryId == r.deliveryId)
      {
        assert f(rows[i]);
      }
    }
  }

  // The answered Burrows are exactly those left with a row at the presented endpoint
  // and key, each once.
  lemma {:induction false} EndpointBurrowsMeaning(kept: seq<Row>, r: Record)
    ensures NoDup(EndpointBurrows(kept, r))
    ensures forall b :: b in EndpointBurrows(kept, r) <==>
              exists x :: x in kept && x.endpoint == r.endpoint && x.vapidPublicKey == r.vapidPublicKey && x.burrowId == b
  {
    if kept != [] {
      var front, last := kept[..|kept| - 1], kept[|kept| - 1];
      EndpointBurrowsMeaning(front, r);
      assert kept == front + [last];
    }
  }

  // ----- Which rows an upsert keeps ----------------------------------------------------

  // The rows a filter leaves are, in order, exactly those it is for.
  lemma {:induction false} FilterEmbeds(f: Row -> bool, all: seq<Row>) returns (at: seq<nat>)
    ensures Embeds(at, Filter(f, all), all)
    ensures forall i: nat :: i in at <==> i < |all| && f(all[i])
  {
    if all == [] {
      at := [];
    } else {
      var n := |all| - 1;
      var before := FilterEmbeds(f, all[..n]);
      forall j | 0 <= j < |before|
        ensures before[j] < n
      {
        assert before[j] in before;
      }
      at := before + if f(all[n]) then [n] else [];
      FilterAppend(f, all[..n], all[n]);
      assert all == all[..n] + [all[n]];
      hide Filter;
    }
  }

  // A row of the file stays beside a request's: its key is another, and no row says that the
  // request's delivery has been at its address and is moving off.
  ghost predicate Stays(all: seq<Row>, r: Record, x: Row) {
    && (x.burrowId != r.burrowId || x.deliveryId != r.deliveryId)
    && !exists y :: y in all && y.deliveryId == r.deliveryId && y.endpoint != r.endpoint && y.endpoint == x.endpoint
  }

  lemma SurvivesIsStays(all: seq<Row>, r: Record, x: Row)
    ensures Survives(r, Replaced(all, r))(x) == Stays(all, r, x)
  {
    if x.endpoint in Replaced(all, r) {
      var y :| y in all && y.deliveryId == r.deliveryId && y.endpoint != r.endpoint && y.endpoint == x.endpoint;
      assert !Stays(all, r, x);
    }
  }

  // An upsert keeps, in order and before the new row, exactly the rows of the file that stay,
  // where with the new one they meet both caps; and otherwise what the cap leaves of them.
  lemma UpsertKeeps(all: seq<Row>, r: Record, now: int) returns (at: seq<nat>, before: seq<Row>)
    ensures Embeds(at, before, all)
    ensures forall i: nat :: i in at <==> i < |all| && Stays(all, r, all[i])
    ensures var new' := Row(r.burrowId, r.deliveryId, r.endpoint, r.vapidPublicKey, now);
      && Upserted(all, r, now) == Cap(before, new')
      && (|before| < 256 && (forall b :: |OfBurrow(before + [new'], b)| <= 32) ==> Upserted(all, r, now) == before + [new'])
  {
    var f := Survives(r, Replaced(all, r));
    before := Filter(f, all);
    at := FilterEmbeds(f, all);
    forall x
      ensures f(x) == Stays(all, r, x)
    {
      SurvivesIsStays(all, r, x);
    }
    hide Cap, Filter, Survives, Replaced, Stays, Embeds;
    if |before| < 256 {
      CapDropsOnlyExcess(before, Stamped(r, now));
    }
  }

  // What a reader finds: the subscriptions among the file's rows, in order, exactly those of
  // enrolled Burrows, or all where nothing says which are enrolled.
  lemma {:induction false} LiveRows(entries: seq<Entry>, enrolled: Option<set<BurrowId>>) returns (at: seq<nat>)
    ensures |at| == |Live(entries, enrolled)|
    ensures forall k :: 0 <= k < |at| ==> at[k] < |entries| && entries[at[k]] == Good(Live(entries, enrolled)[k])
    ensures forall j, k :: 0 <= j < k < |at| ==> at[j] < at[k]
    ensures forall i: nat :: i in at <==>
      i < |entries| && entries[i].Good? && (enrolled.None? || entries[i].row.burrowId in enrolled.value)
  {
    if entries == [] {
      at := [];
    } else {
      var n := |entries| - 1;
      var before := LiveRows(entries[..n], enrolled);
      assert forall j :: 0 <= j < |before| ==> before[j] in before;
      at := before + if entries[n].Good? && (enrolled.None? || entries[n].row.burrowId in enrolled.value) then [n] else [];
    }
  }

  predicate AtEndpoint(x: Row, r: Record) {
    x.endpoint == r.endpoint && x.vapidPublicKey == r.vapidPublicKey
  }

  // The first row of its Burrow at the presented endpoint and key.
  ghost predicate FirstAt(kept: seq<Row>, r: Record, i: nat) {
    && i < |kept| && AtEndpoint(kept[i], r)
    && forall j :: 0 <= j < i && kept[j].burrowId == kept[i].burrowId ==> !AtEndpoint(kept[j], r)
  }

  lemma FirstAtGrows(kept: seq<Row>, r: Record, n: nat, i: nat)
    requires n <= |kept| && FirstAt(kept[..n], r, i)
    ensures FirstAt(kept, r, i) && i < n && kept[i] == kept[..n][i]
  {
    forall j | 0 <= j < i && kept[j].burrowId == kept[i].burrowId
      ensures !AtEndpoint(kept[j], r)
    {
      assert kept[j] == kept[..n][j];
    }
  }

  // The answered Burrows come in the order of their first rows at the presented endpoint and key.
  lemma {:induction false} EndpointBurrowsInOrder(kept: seq<Row>, r: Record) returns (at: seq<nat>)
    ensures |at| == |EndpointBurrows(kept, r)|
    ensures forall k :: 0 <= k < |at| ==> at[k] < |kept| && FirstAt(kept, r, at[k])
    ensures forall k :: 0 <= k < |at| ==> kept[at[k]].burrowId == EndpointBurrows(kept, r)[k]
    ensures forall j, k :: 0 <= j < k < |at| ==> at[j] < at[k]
  {
    if kept == [] {
      at := [];
    } else {
      var n := |kept| - 1;
      var last := kept[n];
      at := EndpointBurrowsInOrder(kept[..n], r);
      EndpointBurrowsMeaning(kept[..n], r);
      hide FirstAt;
      forall k | 0 <= k < |at|
        ensures FirstAt(kept, r, at[k]) && at[k] < n && kept[at[k]] == kept[..n][at[k]]
      {
        FirstAtGrows(kept, r, n, at[k]);
      }
      if AtEndpoint(last, r) && last.burrowId !in EndpointBurrows(kept[..n], r) {
        NoneEarlier(kept, r);
        at := at + [n];
      }
    }
  }

  lemma NoneEarlier(kept: seq<Row>, r: Record)
    requires kept != []
    requires var n := |kept| - 1; AtEndpoint(kept[n], r) && kept[n].burrowId !in EndpointBurrows(kept[..n], r)
    ensures FirstAt(kept, r, |kept| - 1)
  {
    var n := |kept| - 1;
    EndpointBurrowsMeaning(kept[..n], r);
    forall j | 0 <= j < n && kept[j].burrowId == kept[n].burrowId
      ensures !AtEndpoint(kept[j], r)
    {
      assert kept[j] == kept[..n][j] && kept[j] in kept[..n];
    }
  }

  // ----- Registering again --------------------------------------------------------------

  lemma {:induction false} LiveMembers(entries: seq<Entry>, enrolled: Option<set<BurrowId>>)
    ensures forall x :: x in Live(entries, enrolled) ==> enrolled.None? || x.burrowId in enrolled.value
  {
    if entries != [] {
      LiveMembers(entries[..|entries| - 1], enrolled);
    }
  }

  lemma {:induction false} LiveOfWritten(rows: seq<Row>, enrolled: Option<set<BurrowId>>)
    requires forall x :: x in rows ==> enrolled.None? || x.burrowId in enrolled.value
    ensures Live(Written(rows).entries, enrolled) == rows
  {
    if rows != [] {
      var front := rows[..|rows| - 1];
      LiveOfWritten(front, enrolled);
      assert Written(rows).entries[..|rows| - 1] == Written(front).entries;
      assert Written(rows).entries[|rows| - 1] == Good(rows[|rows| - 1]);
      assert rows == front + [rows[|rows| - 1]];
      assert rows[|rows| - 1] in rows;
    }
  }

  // The rows an upsert leaves before its own.
  ghost predicate IsFront(front: seq<Row>, all: seq<Row>, r: Record, now: int) {
    && Upserted(all, r, now) == front + [Stamped(r, now)]
    && (forall x :: x in front ==> x in all && Survives(r, {})(x) && (x.deliveryId == r.deliveryId ==> x.endpoint == r.endpoint))
    && |front| < MAX_TOTAL
    && forall b :: |OfBurrow(front + [Stamped(r, now)], b)| <= MAX_PER_BURROW
  }

  lemma UpsertFront(all: seq<Row>, r: Record, now: int) returns (front: seq<Row>)
    ensures IsFront(front, all, r, now)
  {
    var kept := Upserted(all, r, now);
    UpsertMoves(all, r, now);
    var at := CapKeeps(Filter(Survives(r, Replaced(all, r)), all), Stamped(r, now));
    assert |kept| <= MAX_TOTAL && forall b :: |OfBurrow(kept, b)| <= MAX_PER_BURROW;
    hide Upserted, Cap, Filter, OfBurrow, Embeds, NoneOlderThanGone;
    front := kept[..|kept| - 1];
    assert kept == front + [Stamped(r, now)];
    forall j | 0 <= j < |front|
      ensures front[j] == kept[j] && front[j] in kept
    {
    }
  }

  // What a second request finds: the first one's rows, its own only if its Burrow is
  // enrolled.
  lemma ReadBack(all: seq<Row>, enrolled: Option<set<BurrowId>>, front: seq<Row>, last: Row) returns (own: seq<Row>)
    requires forall x :: x in all ==> enrolled.None? || x.burrowId in enrolled.value
    requires forall x :: x in front ==> x in all
    ensures own == [] || own == [last]
    ensures Listed(Written(front + [last]), enrolled) == front + own
  {
    own := if enrolled.None? || last.burrowId in enrolled.value then [last] else [];
    LiveOfWritten(front, enrolled);
    assert Written(front + [last]).entries[..|front|] == Written(front).entries;
  }

  // The same request finds nothing to move off, and its own row the only one to replace.
  lemma FrontSurvives(front: seq<Row>, own: seq<Row>, r: Record, now: int)
    requires forall x :: x in front ==> Survives(r, {})(x) && (x.deliveryId == r.deliveryId ==> x.endpoint == r.endpoint)
    requires own == [] || own == [Stamped(r, now)]
    ensures Replaced(front + own, r) == {} && Filter(Survives(r, {}), front + own) == front
  {
    FilterAll(Survives(r, {}), front);
    if own == [] {
      assert front + own == front;
    } else {
      FilterAppend(Survives(r, {}), front, Stamped(r, now));
      assert front + [] == front;
    }
  }

  // The kept rows, the new one restamped, meet both caps already.
  lemma FrontFits(front: seq<Row>, r: Record, now: int, later: int)
    requires |front| < MAX_TOTAL && forall b :: |OfBurrow(front + [Stamped(r, now)], b)| <= MAX_PER_BURROW
    ensures Cap(front, Stamped(r, later)) == front + [Stamped(r, later)]
  {
    forall b
      ensures |OfBurrow(front + [Stamped(r, later)], b)| == |OfBurrow(front + [Stamped(r, now)], b)|
    {
      FilterAppend((x: Row) => x.burrowId == b, front, Stamped(r, now));
      FilterAppend((x: Row) => x.burrowId == b, front, Stamped(r, later));
    }
    CapDropsOnlyExcess(front, Stamped(r, later));
  }

  // The same request again, the enrolled set unchanged, leaves the same rows but for
  // when it was made, and answers the same Burrows.
  lemma UpsertAgain(file: File, enrolled: Option<set<BurrowId>>, r: Record, now: int, later: int) returns (front: seq<Row>)
    ensures var kept := Upserted(Listed(file, enrolled), r, now);
      var again := Upserted(Listed(Written(kept), enrolled), r, later);
      && kept == front + [Stamped(r, now)]
      && again == front + [Stamped(r, later)]
      && EndpointBurrows(again, r) == EndpointBurrows(kept, r)
  {
    var all := Listed(file, enrolled);
    if file.Rows? {
      LiveMembers(file.entries, enrolled);
    }
    front := UpsertFront(all, r, now);
    hide Live, Cap, Filter, Survives;
    var own := ReadBack(all, enrolled, front, Stamped(r, now));
    FrontSurvives(front, own, r, now);
    FrontFits(front, r, now, later);
    hide *;
    assert Upserted(front + own, r, later) == front + [Stamped(r, later)] by { UpsertedIs(front, own, r, later); }
    assert Upserted(all, r, now) == front + [Stamped(r, now)] by { FrontIs(front, all, r, now); }
    SameBurrows(front, r, now, later);
  }

  lemma FrontIs(front: seq<Row>, all: seq<Row>, r: Record, now: int)
    requires IsFront(front, all, r, now)
    ensures Upserted(all, r, now) == front + [Stamped(r, now)]
  {
  }

  lemma UpsertedIs(front: seq<Row>, own: seq<Row>, r: Record, later: int)
    requires Replaced(front + own, r) == {} && Filter(Survives(r, {}), front + own) == front
    requires Cap(front, Stamped(r, later)) == front + [Stamped(r, later)]
    ensures Upserted(front + own, r, later) == front + [Stamped(r, later)]
  {
    hide Cap, Filter;
  }

  lemma SameBurrows(front: seq<Row>, r: Record, now: int, later: int)
    ensures EndpointBurrows(front + [Stamped(r, now)], r) == EndpointBurrows(front + [Stamped(r, later)], r)
  {
    assert (front + [Stamped(r, now)])[..|front|] == front;
    assert (front + [Stamped(r, later)])[..|front|] == front;
  }

  // ----- The store ----------------------------------------------------------------------

  function Count(perBurrow: map<BurrowId, int>, b: BurrowId): int {
    if b in perBurrow then perBurrow[b] else 0
  }

  method CountRows(all: seq<Row>) returns (perBurrow: map<BurrowId, int>)
    ensures forall b :: Count(perBurrow, b) == Left(all, Some(b), {}, |all|)
  {
    perBurrow := map[];
    for i := 0 to |all|
      invariant forall b :: Count(perBurrow, b) == Left(all, Some(b), {}, i)
    {
      var b := all[i].burrowId;
      perBurrow := perBurrow[b := Count(perBurrow, b) + 1];
    }
  }

  method CapSubscriptions(rows: seq<Row>, keep: Row) returns (kept: seq<Row>)
    ensures kept == Cap(rows, keep)
  {
    var all := rows + [keep];
    PickAll(all, |all|);
    if |all| <= MAX_PER_BURROW {
      return all;
    }
    var perBurrow: map<BurrowId, int> := CountRows(all);
    var total := |all|;
    var order := ByAge(all);
    var dropped: set<nat> := {};
    ByAgeMeaning(all);
    PickCounts(all, {}, |all|, 0);
    hide Left, Pick, ByAge;
    for k := 0 to |order|
      invariant dropped == Dropped(all, order, k)
      invariant total == Left(all, None, dropped, |all|)
      invariant forall b :: Count(perBurrow, b) == Left(all, Some(b), dropped, |all|)
    {
      var i := order[k];
      assert i in order;
      if i == |all| - 1 { continue; }
      var forBurrow := Count(perBurrow, all[i].burrowId);
      if total <= MAX_TOTAL && forBurrow <= MAX_PER_BURROW { continue; }
      DroppingCounts(all, order, k, dropped);
      dropped := dropped + {i};
      perBurrow := perBurrow[all[i].burrowId := forBurrow - 1];
      total := total - 1;
    }
    kept := Pick(all, dropped, |all|);
  }

  // The effect of one drop on every count.
  lemma DroppingCounts(all: seq<Row>, order: seq<nat>, k: nat, dropped: set<nat>)
    requires NoDup(order) && k < |order| && order[k] < |all| && dropped == Dropped(all, order, k)
    ensures var i := order[k];
      && Left(all, None, dropped + {i}, |all|) == Left(all, None, dropped, |all|) - 1
      && forall b :: Left(all, Some(b), dropped + {i}, |all|)
                  == Left(all, Some(b), dropped, |all|) - if b == all[i].burrowId then 1 else 0
  {
    var i := order[k];
    if i in dropped {
      DroppedAreEarlier(all, order, k, i);
    }
    LeftAfterDrop(all, None, dropped, i, |all|);
    forall b
    {
      LeftAfterDrop(all, Some(b), dropped, i, |all|);
    }
  }

  class PushSubscriptionStore {
    var file: File

    constructor (onDisk: File)
      ensures file == onDisk
    {
      file := onDisk;
    }

    method Upsert(r: Record, enrolled: Option<set<BurrowId>>, now: int) returns (stored: Row, endpointBurrowIds: seq<BurrowId>)
      modifies this
      ensures var kept := Upserted(Listed(old(file), enrolled), r, now);
        file == Written(kept) && stored == Stamped(r, now) && endpointBurrowIds == EndpointBurrows(kept, r)
    {
      var all := Listed(file, enrolled);
      stored := Stamped(r, now);
      UpsertMoves(all, r, now);
      var kept := CapSubscriptions(Filter(Survives(r, Replaced(all, r)), all), stored);
      file := Written(kept);
      endpointBurrowIds := EndpointBurrows(kept, r);
    }

    // Writes only when something goes, so rows a reader passes over stay in the file
    // until something does.
    method RemoveEndpoints(endpoints: seq<Endpoint>, enrolled: Option<set<BurrowId>>) returns (removed: nat)
      modifies this
      ensures var all := Listed(old(file), enrolled);
        var kept := Filter((x: Row) => x.endpoint !in endpoints, all);
        && removed == |all| - |kept|
        && Listed(file, enrolled) == kept
        && file == (if removed == 0 then old(file) else Written(kept))
    {
      var all := Listed(file, enrolled);
      var gone := (x: Row) => x.endpoint !in endpoints;
      var kept := Filter(gone, all);
      removed := Remove(all, gone, enrolled);
    }

    method RemoveDelivery(deliveryId: DeliveryId, enrolled: Option<set<BurrowId>>) returns (removed: nat)
      modifies this
      ensures var all := Listed(old(file), enrolled);
        var kept := Filter((x: Row) => x.deliveryId != deliveryId, all);
        && removed == |all| - |kept|
        && Listed(file, enrolled) == kept
        && file == (if removed == 0 then old(file) else Written(kept))
    {
      removed := Remove(Listed(file, enrolled), (x: Row) => x.deliveryId != deliveryId, enrolled);
    }

    method Remove(all: seq<Row>, stays: Row -> bool, enrolled: Option<set<BurrowId>>) returns (removed: nat)
      requires all == Listed(file, enrolled)
      modifies this
      ensures var kept := Filter(stays, all);
        removed == |all| - |kept| && Listed(file, enrolled) == kept && file == (if removed == 0 then old(file) else Written(kept))
    {
      var kept := Filter(stays, all);
      FilterMembers(stays, all);
      if |kept| == |all| {
        FilterFull(stays, all);
        FilterAll(stays, all);
        return 0;
      }
      if file.Rows? {
        LiveMembers(file.entries, enrolled);
      }
      LiveOfWritten(kept, enrolled);
      file := Written(kept);
      removed := |all| - |kept|;
    }
  }
}
