/** The file Config Center reader: its fields and the critical sections that change them. */
module FileReader {
  import opened Wrappers
  import opened FileSubscriptions
  import KeyMapping

  /******* Listing a set *******/

  lemma ListsNext(order: seq<nat>, ids: set<nat>, id: nat)
    requires Lists(order, ids) && id !in ids
    ensures Lists(order + [id], ids + {id})
  {
    var now := order + [id];
    forall i, j | 0 <= i < j < |now| ensures now[i] != now[j] {
      assert now[i] in order;
    }
  }

  lemma {:induction false} ListMore(order: seq<nat>, ids: set<nat>, rest: set<nat>, goal: set<nat>) returns (whole: seq<nat>)
    requires Lists(order, ids) && ids !! rest && goal == ids + rest
    ensures order <= whole && Lists(whole, goal)
    decreases |rest|
  {
    if rest == {} {
      assert ids == goal;
      whole := order;
    } else {
      var id :| id in rest;
      ListsNext(order, ids, id);
      whole := ListMore(order + [id], ids + {id}, rest - {id}, goal);
      assert order <= order + [id];
    }
  }

  /** The next subscription of a walk that is still going. */
  lemma VisitedNext(all: seq<Subscription>, order: seq<nat>, id: nat, state: FileState, now: seq<Subscription>)
    requires Visited(all, order, state) == (now, true) && id < |now|
    ensures Visited(all, order + [id], state) ==
            if Sampled(now[id], state).None? then (now, false) else (now[id := Sampled(now[id], state).value], true)
  {
    assert (order + [id])[..|order|] == order;
  }

  /** A walk over some subscriptions that has not failed. */
  ghost predicate Walking(all: seq<Subscription>, now: seq<Subscription>, order: seq<nat>, done: set<nat>, state: FileState) {
    Lists(order, done) && Visited(all, order, state) == (now, true) && |now| == |all|
  }

  lemma WalkNext(all: seq<Subscription>, now: seq<Subscription>, order: seq<nat>, done: set<nat>, ids: set<nat>, id: nat, state: FileState)
    returns (whole: seq<nat>)
    requires Walking(all, now, order, done, state) && done <= ids && id in ids - done && id < |all|
    ensures var s := Sampled(now[id], state);
            if s.Some? then Walking(all, now[id := s.value], order + [id], done + {id}, state)
            else Lists(whole, ids) && Visited(all, whole, state) == (now, false)
  {
    ListsNext(order, done, id);
    VisitedNext(all, order, id, state, now);
    whole := order;
    if Sampled(now[id], state).None? {
      whole := FailedWalk(all, order + [id], done + {id}, ids, state);
    }
  }

  /** A walk that has failed can be listed to its end. */
  lemma FailedWalk(all: seq<Subscription>, order: seq<nat>, done: set<nat>, ids: set<nat>, state: FileState) returns (whole: seq<nat>)
    requires Lists(order, done) && done <= ids && !Visited(all, order, state).1
    ensures Lists(whole, ids) && Visited(all, whole, state) == Visited(all, order, state)
  {
    whole := ListMore(order, done, ids - done, ids);
    VisitedStops(all, order, whole, state);
  }

  /** A walk that has failed stays where it is. */
  lemma {:induction false} VisitedStops(all: seq<Subscription>, order: seq<nat>, whole: seq<nat>, state: FileState)
    requires order <= whole && !Visited(all, order, state).1
    ensures Visited(all, whole, state) == Visited(all, order, state)
  {
    if |order| == |whole| {
      assert order == whole;
    } else {
      VisitedStops(all, order, whole[..|whole| - 1], state);
    }
  }

  /******* Ending subscriptions *******/

  lemma TerminatedNone(all: seq<Subscription>, o: Outcome)
    ensures TerminatedAll(all, {}, o) == all
  {
  }

  lemma TerminatedNext(all: seq<Subscription>, done: set<nat>, id: nat, o: Outcome)
    requires id < |all|
    ensures var now := TerminatedAll(all, done, o);
            now[id := Terminated(now[id], o)] == TerminatedAll(all, done + {id}, o)
  {
  }

  lemma TerminatedMore(all: seq<Subscription>, a: set<nat>, b: set<nat>, o: Outcome)
    ensures TerminatedAll(TerminatedAll(all, a, o), b, o) == TerminatedAll(all, a + b, o)
  {
  }

  ghost function IdsUnder(subscriptions: map<string, set<nat>>, keys: set<string>): set<nat> {
    set key, id | key in keys && key in subscriptions && id in subscriptions[key] :: id
  }

  lemma IdsUnderAll(subscriptions: map<string, set<nat>>)
    ensures IdsUnder(subscriptions, {}) == {} && IdsUnder(subscriptions, subscriptions.Keys) == AllIds(subscriptions)
  {
  }

  lemma IdsUnderNext(subscriptions: map<string, set<nat>>, keys: set<string>, key: string)
    requires key in subscriptions
    ensures IdsUnder(subscriptions, keys + {key}) == IdsUnder(subscriptions, keys) + subscriptions[key]
  {
  }

  class Reader {
    const buffer: nat
    var closed: bool
    var interrupted: bool
    var subscriptions: map<string, set<nat>>
    var all: seq<Subscription>
    ghost var samples: map<string, nat>
    ghost var last: map<string, FileState>
    ghost var since: seq<nat>
    ghost var faulted: bool

    ghost function View(): State
      reads this
    {
      State(closed, interrupted, subscriptions, all, buffer, samples, last, since, faulted)
    }

    /** Kept by every method, since each is a step of the system. */
    ghost predicate Valid()
      reads this
    {
      Inv(View())
    }

    ghost predicate InRange()
      reads this
    {
      forall key, id: nat {:trigger id in IdsOf(subscriptions, key)} | id in IdsOf(subscriptions, key) :: id < |all|
    }

    constructor (buffer: nat)
      ensures Valid() && View() == Start(buffer)
    {
      this.buffer := buffer;
      closed, interrupted, subscriptions, all := false, false, map[], [];
      samples, last, since, faulted := map[], map[], [], false;
    }

    /** Samples the key and registers a subscription under one lock. */
    method Observe(key: string, sample: Option<FileState>) returns (id: Option<nat>)
      requires Valid()
      modifies this
      ensures Valid() && View() == Next(old(View()), FileSubscriptions.Observe(key, sample))
      ensures id.Some? <==> !old(closed) && !old(interrupted) && sample.Some? && KeyMapping.ValidKey(key)
      ensures id.Some? ==> id.value == |old(all)|
    {
      NextKeeps(View(), FileSubscriptions.Observe(key, sample));
      var valid := KeyMapping.CheckKey(key);
      if !valid || closed || interrupted || sample.None? {
        return None;
      }
      id := Some(|all|);
      all := all + [Opened(id.value, key, buffer, sample.value)];
      since := since + [CountIn(samples, key)];
      subscriptions := subscriptions[key := IdsOf(subscriptions, key) + {id.value}];
    }

    /** Ends each of the given subscriptions, in any order. */
    method TerminateIds(ids: set<nat>, o: Outcome)
      requires forall id | id in ids :: id < |all|
      modifies this`all
      ensures all == TerminatedAll(old(all), ids, o)
    {
      var rest := ids;
      ghost var done: set<nat> := {};
      TerminatedNone(all, o);
      while rest != {}
        invariant rest <= ids && done == ids - rest
        invariant all == TerminatedAll(old(all), done, o)
        decreases |rest|
      {
        var id :| id in rest;
        TerminatedNext(old(all), done, id, o);
        all := all[id := Terminated(all[id], o)];
        rest, done := rest - {id}, done + {id};
      }
      assert done == ids;
    }

    /** Ends every registered subscription and forgets them all. */
    method TerminateAll(o: Outcome)
      requires InRange()
      modifies this`all, this`subscriptions
      ensures View() == Ended(old(View()), o)
    {
      var keys := subscriptions.Keys;
      ghost var seen: set<string>, ended: set<nat> := {}, {};
      TerminatedNone(all, o);
      IdsUnderAll(subscriptions);
      while keys != {}
        invariant keys <= subscriptions.Keys && seen == subscriptions.Keys - keys && subscriptions == old(subscriptions)
        invariant ended == IdsUnder(subscriptions, seen)
        invariant |all| == |old(all)| && all == TerminatedAll(old(all), ended, o)
        decreases |keys|
      {
        var key :| key in keys;
        IdsUnderNext(subscriptions, seen, key);
        TerminatedMore(old(all), ended, subscriptions[key], o);
        Ranged(key);
        TerminateIds(subscriptions[key], o);
        seen, ended, keys := seen + {key}, ended + subscriptions[key], keys - {key};
      }
      assert seen == subscriptions.Keys;
      subscriptions := map[];
    }

    lemma Ranged(key: string)
      requires key in subscriptions && InRange()
      ensures forall id | id in subscriptions[key] :: id < |all|
    {
      forall id | id in subscriptions[key] ensures id < |all| {
        assert id in IdsOf(subscriptions, key);
      }
    }

    method InterruptAll()
      requires Valid()
      modifies this
      ensures Valid() && View() == Next(old(View()), Interrupt)
    {
      NextKeeps(View(), Interrupt);
      if closed || interrupted {
        return;
      }
      interrupted := true;
      TerminateAll(WatchInterrupted(""));
    }

    method Close()
      requires Valid()
      modifies this
      ensures Valid() && View() == Next(old(View()), CloseReader)
    {
      NextKeeps(View(), CloseReader);
      if closed {
        return;
      }
      closed := true;
      TerminateAll(ReaderClosed);
    }

    method CloseOne(id: nat)
      requires Valid() && id < |all|
      modifies this
      ensures Valid() && View() == Next(old(View()), CloseSubscription(id))
    {
      NextKeeps(View(), CloseSubscription(id));
      var key := all[id].key;
      if id in IdsOf(subscriptions, key) {
        var rest := IdsOf(subscriptions, key) - {id};
        if rest == {} {
          subscriptions := subscriptions - {key};
        } else {
          subscriptions := subscriptions[key := rest];
        }
        all := all[id := Terminated(all[id], SubscriptionClosed)];
      }
    }

    /**
     * Samples a key and hands the result to its subscriptions, in any order. A
     * subscription that cannot take it stops the walk.
     */
    method SampleKey(key: string, reading: Result<FileState, string>) returns (fault: bool, ghost order: seq<nat>)
      requires Valid() && FaultsAnswered(View())
      modifies this
      ensures Valid() && View() == Next(old(View()), KeyChange(key, reading, order))
      ensures fault <==> faulted && !closed && !interrupted
    {
      fault, order := false, [];
      var ids := IdsOf(subscriptions, key);
      if closed || interrupted || ids == {} {
        return;
      }
      if reading.Failure? {
        NextKeeps(View(), KeyChange(key, reading, order));
        EndKey(key, WatchInterrupted(WatchCause(reading.error)));
        return;
      }
      fault, order := HandOut(key, reading.value);
      NextKeeps(old(View()), KeyChange(key, reading, order));
    }

    /** Hands one sample to the subscriptions of its key. */
    method HandOut(key: string, state: FileState) returns (fault: bool, ghost order: seq<nat>)
      requires InRange() && !closed && !interrupted && !faulted && IdsOf(subscriptions, key) != {}
      modifies this`all, this`samples, this`last, this`faulted
      ensures View() == Changed(old(View()), key, Success(state), order) && fault == faulted
    {
      fault, order := VisitAll(IdsOf(subscriptions, key), state);
      samples, last := samples[key := CountIn(samples, key) + 1], last[key := state];
      faulted := fault;
    }

    /**
     * Samples a key and, when a subscription could not take the sample, ends the
     * reader: on return either no sample was lost or every subscription has ended.
     */
    method ProcessKeyChange(key: string, reading: Result<FileState, string>) returns (ghost order: seq<nat>)
      requires Valid() && FaultsAnswered(View())
      modifies this
      ensures Valid() && FaultsAnswered(View())
      ensures var sampled := Next(old(View()), KeyChange(key, reading, order));
              View() == if sampled.faulted then Next(sampled, Interrupt) else sampled
      ensures forall i: nat | i < |all| && all[i].terminal.None? :: i < |since| && UpToDate(View(), all[i], since[i])
    {
      var fault;
      fault, order := SampleKey(key, reading);
      if fault {
        InterruptAll();
      }
      EndedOrUpToDate();
    }

    lemma EndedOrUpToDate()
      requires Valid() && FaultsAnswered(View())
      ensures forall i: nat | i < |all| && all[i].terminal.None? :: i < |since| && UpToDate(View(), all[i], since[i])
    {
      forall i: nat | i < |all| && all[i].terminal.None? ensures i < |since| && UpToDate(View(), all[i], since[i]) {
        assert i in IdsOf(subscriptions, all[i].key);
      }
    }

    /** Ends the subscriptions of one key and forgets the key. */
    method EndKey(key: string, o: Outcome)
      requires InRange()
      modifies this`all, this`subscriptions
      ensures all == TerminatedAll(old(all), IdsOf(old(subscriptions), key), o) && subscriptions == old(subscriptions) - {key}
    {
      TerminateIds(IdsOf(subscriptions, key), o);
      subscriptions := subscriptions - {key};
    }

    /** The walk over the subscriptions of one key. */
    method VisitAll(ids: set<nat>, state: FileState) returns (fault: bool, ghost order: seq<nat>)
      requires forall id | id in ids :: id < |all|
      modifies this`all
      ensures Lists(order, ids) && (all, !fault) == Visited(old(all), order, state)
    {
      order := [];
      var rest := ids;
      ghost var done: set<nat> := {};
      while rest != {}
        invariant rest <= ids && done == ids - rest
        invariant Walking(old(all), all, order, done, state)
        decreases |rest|
      {
        var id :| id in rest;
        ghost var whole := WalkNext(old(all), all, order, done, ids, id, state);
        var s := Sampled(all[id], state);
        if s.None? {
          return true, whole;
        }
        all := all[id := s.value];
        order, done, rest := order + [id], done + {id}, rest - {id};
      }
      assert done == ids;
      return false, order;
    }

    /** One part of a call of Next on one subscription. */
    static method PullOne(s: Subscription, part: PullPart) returns (t: Subscription, received: Option<ConfigEvent>)
      ensures t == Pulled(s, part)
      ensures t.delivered == s.delivered + if received.Some? then [received.value] else []
    {
      t, received := s, None;
      match part {
      case Begins =>
        if s.terminal.None? {
          t := s.(waiting := s.waiting + 1);
        }
      case Delivers =>
        if s.waiting > 0 && s.queue != [] {
          received := Some(s.queue[0]);
          t := s.(waiting := s.waiting - 1, delivered := s.delivered + [s.queue[0]], queue := s.queue[1..]);
        }
      case Returns =>
        if s.waiting > 0 {
          t := s.(waiting := s.waiting - 1);
        }
      }
    }

    method PullPartOf(id: nat, part: PullPart) returns (received: Option<ConfigEvent>)
      requires Valid() && id < |all|
      modifies this
      ensures Valid() && View() == Next(old(View()), Pull(id, part))
      ensures received.Some? ==> all[id].delivered == old(all)[id].delivered + [received.value]
      ensures received.None? ==> all[id].delivered == old(all)[id].delivered
    {
      NextKeeps(View(), Pull(id, part));
      ghost var before := all[id].delivered;
      received := PullAt(id, part);
      assert received.None? ==> before + [] == before;
    }

    method PullAt(id: nat, part: PullPart) returns (received: Option<ConfigEvent>)
      requires id < |all|
      modifies this`all
      ensures View() == Next(old(View()), Pull(id, part))
      ensures all[id].delivered == old(all)[id].delivered + if received.Some? then [received.value] else []
    {
      var s;
      s, received := PullOne(all[id], part);
      all := all[id := s];
    }
  }
}
