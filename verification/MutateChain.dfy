/**
 The mutex of a state file: a chain of promises in which every mutation waits for the
 one that was last when it was asked for, whether that resolved or was rejected.
 */
module MutateChain {
  import opened Common

  datatype Status = Waiting | Running | Settled

  // `tail` is the mutation asked for last, and `after` what each waits for. `order` is
  // every mutation in the order asked for, which no step reads.
  datatype State = State(
    tail: Option<nat>,
    after: map<nat, Option<nat>>,
    status: map<nat, Status>,
    order: seq<nat>)

  datatype Event = Mutate(id: nat) | Begin(id: nat) | Settle(id: nat)

  function Empty(): State {
    State(None, map[], map[], [])
  }

  ghost predicate Next(s: State, e: Event, t: State) {
    match e
    case Mutate(id) =>
      && id !in s.status
      && t == State(Some(id), s.after[id := s.tail], s.status[id := Waiting], s.order + [id])
    case Begin(id) =>
      && id in s.status && s.status[id] == Waiting && CanBegin(s, id)
      && t == s.(status := s.status[id := Running])
    case Settle(id) =>
      && id in s.status && s.status[id] == Running
      && t == s.(status := s.status[id := Settled])
  }

  predicate CanBegin(s: State, id: nat) {
    && id in s.after
    && (s.after[id].Some? ==> s.after[id].value in s.status && s.status[s.after[id].value] == Settled)
  }

  ghost predicate Run(states: seq<State>, events: seq<Event>) {
    && |states| == |events| + 1
    && states[0] == Empty()
    && forall i :: 0 <= i < |events| ==> Next(states[i], events[i], states[i + 1])
  }

  predicate WaitsForPrevious(s: State, k: nat)
    requires k < |s.order|
  {
    s.order[k] in s.after && s.after[s.order[k]] == if k == 0 then None else Some(s.order[k - 1])
  }

  // Each waits for the one asked for before it.
  ghost predicate Linked(s: State) {
    && NoDup(s.order) && (forall id :: id in s.order <==> id in s.status) && s.after.Keys == s.status.Keys
    && s.tail == (if s.order == [] then None else Some(s.order[|s.order| - 1]))
    && (forall k :: 0 <= k < |s.order| ==> WaitsForPrevious(s, k))
  }

  // Whatever has begun has only what is over before it.
  ghost predicate Orderly(s: State)
    requires Linked(s)
  {
    forall j, k :: 0 <= j < k < |s.order| && s.status[s.order[k]] != Waiting ==> s.status[s.order[j]] == Settled
  }

  ghost predicate Inv(s: State) {
    Linked(s) && Orderly(s)
  }

  lemma EmptyHolds()
    ensures Inv(Empty())
  {
  }

  lemma NextKeepsLinks(s: State, e: Event, t: State)
    requires Linked(s) && Next(s, e, t)
    ensures Linked(t)
  {
    forall k | 0 <= k < |t.order|
      ensures WaitsForPrevious(t, k)
    {
      if k < |s.order| {
        assert WaitsForPrevious(s, k) && t.order[k] == s.order[k] && s.order[k] in s.order;
        if k > 0 { assert t.order[k - 1] == s.order[k - 1]; }
      }
    }
  }

  lemma NextKeepsOrder(s: State, e: Event, t: State)
    requires Inv(s) && Next(s, e, t) && Linked(t)
    ensures Orderly(t)
  {
    var n := |s.order|;
    forall j, k | 0 <= j < k < |t.order| && t.status[t.order[k]] != Waiting
      ensures t.status[t.order[j]] == Settled
    {
      assert k < n && t.order[j] == s.order[j] && t.order[k] == s.order[k];
      assert s.order[j] in s.order && s.order[k] in s.order;
      if s.status[s.order[k]] == Waiting {
        assert WaitsForPrevious(s, k) && s.status[s.order[k - 1]] == Settled;
        if j < k - 1 { assert s.status[s.order[j]] == Settled; }
      } else {
        assert s.status[s.order[j]] == Settled;
      }
    }
  }

  lemma NextKeepsInv(s: State, e: Event, t: State)
    requires Inv(s) && Next(s, e, t)
    ensures Inv(t)
  {
    hide Next, Linked;
    NextKeepsLinks(s, e, t);
    NextKeepsOrder(s, e, t);
  }

  lemma {:induction false} RunKeepsInv(states: seq<State>, events: seq<Event>, i: nat)
    requires Run(states, events) && i < |states|
    ensures Inv(states[i])
  {
    if i > 0 {
      RunKeepsInv(states, events, i - 1);
      assert Next(states[i - 1], events[i - 1], states[i]);
      hide Inv, Next;
      NextKeepsInv(states[i - 1], events[i - 1], states[i]);
    }
  }

  lemma OnlyOneRuns(s: State, a: nat, b: nat)
    requires Inv(s) && a in s.status && b in s.status && s.status[a] == Running && s.status[b] != Waiting
    ensures a == b || s.status[b] == Settled
  {
    var j :| 0 <= j < |s.order| && s.order[j] == a;
    var k :| 0 <= k < |s.order| && s.order[k] == b;
    assert s.status[s.order[j]] == Running;
  }

  // However many mutations are asked for, and however each ends, no two run at once.
  lemma OneAtATime(states: seq<State>, events: seq<Event>, i: nat, a: nat, b: nat)
    requires Run(states, events) && i < |states|
    requires a in states[i].status && b in states[i].status
    requires states[i].status[a] == Running && states[i].status[b] == Running
    ensures a == b
  {
    RunKeepsInv(states, events, i);
    OnlyOneRuns(states[i], a, b);
  }

  // They run in the order they were asked for: one that has begun finds every earlier
  // one over.
  lemma InOrder(states: seq<State>, events: seq<Event>, i: nat, j: nat, k: nat)
    requires Run(states, events) && i < |states| && j < k < |states[i].order|
    requires states[i].order[k] in states[i].status && states[i].status[states[i].order[k]] != Waiting
    ensures states[i].order[j] in states[i].status && states[i].status[states[i].order[j]] == Settled
  {
    RunKeepsInv(states, events, i);
  }

  // No ending wedges the chain: while any waits, one runs or the next may begin.
  lemma NeverWedged(states: seq<State>, events: seq<Event>, i: nat, waiting: nat) returns (id: nat)
    requires Run(states, events) && i < |states|
    requires waiting in states[i].status && states[i].status[waiting] == Waiting
    ensures id in states[i].status
    ensures states[i].status[id] == Running || (states[i].status[id] == Waiting && CanBegin(states[i], id))
  {
    RunKeepsInv(states, events, i);
    var s := states[i];
    var k :| 0 <= k < |s.order| && s.order[k] == waiting;
    while k > 0 && s.status[s.order[k - 1]] == Waiting
      invariant 0 <= k < |s.order| && s.status[s.order[k]] == Waiting
    {
      k := k - 1;
    }
    assert s.order[k] in s.order;
    if k > 0 { assert s.order[k - 1] in s.order; }
    assert WaitsForPrevious(s, k);
    id := if k > 0 && s.status[s.order[k - 1]] == Running then s.order[k - 1] else s.order[k];
  }
}
