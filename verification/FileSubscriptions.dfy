/**
 * Subscriptions of the file Config Center reader. Each critical section of the
 * reader is a step; the source walks its sets of subscriptions in any order.
 */
module FileSubscriptions {
  import opened Wrappers
  import opened Revision
  import KeyMapping

  datatype FileState = Missing | Present(content: seq<int>)

  datatype Outcome = SubscriptionClosed | ReaderClosed | WatchInterrupted(cause: string)

  datatype ConfigEvent = ConfigEvent(state: FileState, revision: Revision)

  const UNSAFE_STATE := "unsafe_state"
  const UNAUTHORIZED := "unauthorized"
  const UNAVAILABLE := "unavailable"
  const PAYLOAD_TOO_LARGE := "payload_too_large"

  function WatchCause(code: string): string {
    if code == UNSAFE_STATE || code == UNAUTHORIZED || code == UNAVAILABLE || code == PAYLOAD_TOO_LARGE then code else ""
  }

  /**
   * A subscription with its bounded channel, what it started from and what it
   * has enqueued and delivered.
   */
  datatype Subscription = Subscription(
    key: string, buffer: nat, queue: seq<ConfigEvent>, terminal: Option<Outcome>, suppressed: nat,
    current: FileState, revision: Revision, waiting: nat,
    initial: FileState, enqueued: seq<ConfigEvent>, delivered: seq<ConfigEvent>)

  /******* One subscription *******/

  function Opened(id: nat, key: string, buffer: nat, state: FileState): Subscription {
    Subscription(key, buffer, [], None, 0, state, Revision(Some(id), 0), 0, state, [], [])
  }

  /** One successful sample; none when the order is exhausted or the channel is full. */
  function Sampled(s: Subscription, state: FileState): Option<Subscription> {
    if s.current == state then Some(s.(suppressed := s.suppressed + 1))
    else
      var next := Advance(s.revision);
      if next.None? || |s.queue| >= s.buffer then None
      else
        var e := ConfigEvent(state, next.value);
        Some(s.(queue := s.queue + [e], enqueued := s.enqueued + [e], current := state, revision := next.value))
  }

  /** A call entered after the end returns at once; one already waiting may still receive a queued event. */
  function Pulled(s: Subscription, part: PullPart): Subscription {
    match part
    case Begins => if s.terminal.Some? then s else s.(waiting := s.waiting + 1)
    case Delivers =>
      if s.waiting == 0 || s.queue == [] then s
      else s.(waiting := s.waiting - 1, delivered := s.delivered + [s.queue[0]], queue := s.queue[1..])
    case Returns => if s.waiting == 0 then s else s.(waiting := s.waiting - 1)
  }

  function Terminated(s: Subscription, o: Outcome): Subscription {
    if s.terminal.Some? then s else s.(terminal := Some(o))
  }

  /** The state after the first n enqueued events. */
  function StateAfter(initial: FileState, enqueued: seq<ConfigEvent>, n: nat): FileState
    requires n <= |enqueued|
  {
    if n == 0 then initial else enqueued[n - 1].state
  }

  /** The revision after the first n enqueued events. */
  function RevisionAfter(id: nat, enqueued: seq<ConfigEvent>, n: nat): Revision
    requires n <= |enqueued|
  {
    if n == 0 then Revision(Some(id), 0) else enqueued[n - 1].revision
  }

  /** Event n has order n + 1 in this observation and changes the state. */
  predicate EnqueuedAt(id: nat, initial: FileState, enqueued: seq<ConfigEvent>, n: nat)
    requires n < |enqueued|
  {
    && enqueued[n].revision.scope == Some(id) && enqueued[n].revision.order == n + 1
    && enqueued[n].state != StateAfter(initial, enqueued, n)
  }

  ghost predicate HistoryInv(id: nat, initial: FileState, enqueued: seq<ConfigEvent>) {
    forall n: nat {:trigger EnqueuedAt(id, initial, enqueued, n)} | n < |enqueued| :: EnqueuedAt(id, initial, enqueued, n)
  }

  ghost predicate SubscriptionInv(id: nat, s: Subscription) {
    && HistoryInv(id, s.initial, s.enqueued)
    && s.revision.scope == Some(id) && s.revision.order == |s.enqueued|
    && s.current == StateAfter(s.initial, s.enqueued, |s.enqueued|)
    && s.delivered + s.queue == s.enqueued
    && |s.queue| <= s.buffer
  }

  lemma OpenedInv(id: nat, key: string, buffer: nat, state: FileState)
    ensures SubscriptionInv(id, Opened(id, key, buffer, state))
  {
  }

  lemma HistoryGrows(id: nat, initial: FileState, enqueued: seq<ConfigEvent>, e: ConfigEvent)
    requires HistoryInv(id, initial, enqueued) && e.state != StateAfter(initial, enqueued, |enqueued|)
    requires e.revision.scope == Some(id) && e.revision.order == |enqueued| + 1
    ensures HistoryInv(id, initial, enqueued + [e])
  {
    var now := enqueued + [e];
    forall n: nat | n < |now| ensures EnqueuedAt(id, initial, now, n) {
      if n < |enqueued| {
        assert EnqueuedAt(id, initial, enqueued, n);
      }
    }
  }

  lemma SampledInv(id: nat, s: Subscription, state: FileState)
    requires SubscriptionInv(id, s) && Sampled(s, state).Some?
    ensures var t := Sampled(s, state).value;
            && SubscriptionInv(id, t) && t.current == state && s.enqueued <= t.enqueued
            && t.suppressed + |t.enqueued| == s.suppressed + |s.enqueued| + 1
            && t == s.(queue := t.queue, suppressed := t.suppressed, current := t.current, revision := t.revision, enqueued := t.enqueued)
  {
    var t := Sampled(s, state).value;
    if s.current != state {
      var e := ConfigEvent(state, t.revision);
      HistoryGrows(id, s.initial, s.enqueued, e);
      assert t.delivered + t.queue == s.delivered + s.queue + [e];
    }
  }

  /** Every enqueued revision follows the one before it. */
  lemma RevisionsFollow(id: nat, s: Subscription, n: nat)
    requires SubscriptionInv(id, s) && n < |s.enqueued|
    ensures ValidateNext(RevisionAfter(id, s.enqueued, n), s.enqueued[n].revision).Follows?
    ensures Advance(RevisionAfter(id, s.enqueued, n)) == Some(s.enqueued[n].revision)
  {
    assert EnqueuedAt(id, s.initial, s.enqueued, n);
    if n > 0 {
      assert EnqueuedAt(id, s.initial, s.enqueued, n - 1);
    }
    FollowsExactly(RevisionAfter(id, s.enqueued, n), s.enqueued[n].revision);
  }

  /******* The reader *******/

  /**
   * The reader, with how often each key was sampled, its last sample, and how many samples of its key came before each
   * subscription; faulted from a failed delivery on, which the watch loop answers by interrupting the reader.
   */
  datatype State = State(
    closed: bool, interrupted: bool, subscriptions: map<string, set<nat>>, all: seq<Subscription>, buffer: nat,
    samples: map<string, nat>, last: map<string, FileState>, since: seq<nat>, faulted: bool)

  function Start(buffer: nat): State {
    State(false, false, map[], [], buffer, map[], map[], [], false)
  }

  function IdsOf(subscriptions: map<string, set<nat>>, key: string): set<nat> {
    if key in subscriptions then subscriptions[key] else {}
  }

  function CountIn(samples: map<string, nat>, key: string): nat {
    if key in samples then samples[key] else 0
  }

  function SamplesOf(st: State, key: string): nat {
    CountIn(st.samples, key)
  }

  ghost function AllIds(subscriptions: map<string, set<nat>>): set<nat> {
    set key, id | key in subscriptions && id in subscriptions[key] :: id
  }

  function TerminatedAll(all: seq<Subscription>, ids: set<nat>, o: Outcome): seq<Subscription> {
    seq(|all|, i requires 0 <= i < |all| => if i in ids then Terminated(all[i], o) else all[i])
  }

  /** Hands a sample to the subscriptions in the given order, up to the first that cannot take it. */
  function Visited(all: seq<Subscription>, order: seq<nat>, state: FileState): (seq<Subscription>, bool) {
    if order == [] then (all, true)
    else
      var (before, ok) := Visited(all, order[..|order| - 1], state);
      var id := order[|order| - 1];
      if !ok || id >= |before| then (before, ok)
      else
        var s := Sampled(before[id], state);
        if s.None? then (before, false) else (before[id := s.value], true)
  }

  ghost predicate NoRepeats(order: seq<nat>) {
    forall i, j | 0 <= i < j < |order| :: order[i] != order[j]
  }

  /** A list of exactly the given ids. */
  ghost predicate Lists(order: seq<nat>, ids: set<nat>) {
    && NoRepeats(order)
    && (forall id :: id in order <==> id in ids)
  }

  /** The parts of a call of Next: entering it, receiving an event, and returning without one. */
  datatype PullPart = Begins | Delivers | Returns

  datatype Step =
    | Observe(key: string, sample: Option<FileState>)
    | KeyChange(key: string, reading: Result<FileState, string>, order: seq<nat>)
    | Interrupt
    | CloseReader
    | CloseSubscription(id: nat)
    | Pull(id: nat, part: PullPart)

  function Observed(st: State, key: string, state: FileState): State {
    var id := |st.all|;
    st.(all := st.all + [Opened(id, key, st.buffer, state)], since := st.since + [SamplesOf(st, key)],
        subscriptions := st.subscriptions[key := IdsOf(st.subscriptions, key) + {id}])
  }

  ghost function Changed(st: State, key: string, sample: Result<FileState, string>, order: seq<nat>): State {
    var ids := IdsOf(st.subscriptions, key);
    if st.closed || st.interrupted || st.faulted || ids == {} then st
    else
      match sample
      case Failure(code) =>
        st.(all := TerminatedAll(st.all, ids, WatchInterrupted(WatchCause(code))), subscriptions := st.subscriptions - {key})
      case Success(state) =>
        if !Lists(order, ids) then st
        else
          var (all, ok) := Visited(st.all, order, state);
          st.(all := all, samples := st.samples[key := SamplesOf(st, key) + 1], last := st.last[key := state], faulted := !ok)
  }

  ghost function Ended(st: State, o: Outcome): State {
    st.(all := TerminatedAll(st.all, AllIds(st.subscriptions), o), subscriptions := map[])
  }

  function Without(subscriptions: map<string, set<nat>>, key: string, id: nat): map<string, set<nat>> {
    var rest := IdsOf(subscriptions, key) - {id};
    if rest == {} then subscriptions - {key} else subscriptions[key := rest]
  }

  ghost function Next(st: State, step: Step): State {
    match step
    case Observe(key, sample) =>
      if st.closed || st.interrupted || sample.None? || !KeyMapping.ValidKey(key) then st else Observed(st, key, sample.value)
    case KeyChange(key, sample, order) => Changed(st, key, sample, order)
    case Interrupt => if st.closed || st.interrupted then st else Ended(st.(interrupted := true), WatchInterrupted(""))
    case CloseReader => if st.closed then st else Ended(st.(closed := true), ReaderClosed)
    case CloseSubscription(id) =>
      if id >= |st.all| || id !in IdsOf(st.subscriptions, st.all[id].key) then st
      else st.(all := st.all[id := Terminated(st.all[id], SubscriptionClosed)],
               subscriptions := Without(st.subscriptions, st.all[id].key, id))
    case Pull(id, part) => if id >= |st.all| then st else st.(all := st.all[id := Pulled(st.all[id], part)])
  }

  /******* The invariant *******/

  /** A subscription is registered under its key exactly while it has no terminal outcome. */
  ghost predicate Registered(st: State) {
    && (forall key, id: nat {:trigger id in IdsOf(st.subscriptions, key)} | id in IdsOf(st.subscriptions, key) :: id < |st.all| && st.all[id].key == key)
    && (forall i: nat | i < |st.all| :: st.all[i].terminal.None? <==> i in IdsOf(st.subscriptions, st.all[i].key))
    && (st.closed || st.interrupted ==> st.subscriptions == map[])
  }

  /** While live, a subscription has taken in every sample of its key since it was opened. */
  predicate UpToDate(st: State, s: Subscription, since: nat) {
    && since + s.suppressed + |s.enqueued| == SamplesOf(st, s.key)
    && (since < SamplesOf(st, s.key) ==> s.key in st.last && s.current == st.last[s.key])
  }

  ghost predicate Inv(st: State) {
    && Registered(st)
    && (forall i: nat | i < |st.all| :: SubscriptionInv(i, st.all[i]))
    && |st.since| == |st.all|
    && (!st.faulted ==> forall i: nat | i < |st.all| && st.all[i].terminal.None? :: UpToDate(st, st.all[i], st.since[i]))
  }

  /******* Every step keeps the invariant *******/

  lemma {:induction false} VisitedLength(all: seq<Subscription>, order: seq<nat>, state: FileState)
    ensures |Visited(all, order, state).0| == |all|
  {
    if order != [] {
      VisitedLength(all, order[..|order| - 1], state);
    }
  }

  lemma LastFresh(order: seq<nat>, i: nat)
    requires order != [] && NoRepeats(order)
    ensures var init, last := order[..|order| - 1], order[|order| - 1];
            NoRepeats(init) && last !in init && (i in order <==> i in init || i == last)
  {
    var init, last := order[..|order| - 1], order[|order| - 1];
    assert order == init + [last];
    forall k | 0 <= k < |init| ensures init[k] != last {
      assert order[k] != order[|order| - 1];
    }
  }

  /** What a walk does to one subscription: nothing, or one sample; and one sample to each that it lists, if it finishes. */
  lemma {:induction false} VisitedEach(all: seq<Subscription>, order: seq<nat>, state: FileState, i: nat)
    requires i < |all| && NoRepeats(order)
    ensures var (now, ok) := Visited(all, order, state);
            && |now| == |all|
            && (i !in order ==> now[i] == all[i])
            && (i in order && ok ==> Sampled(all[i], state) == Some(now[i]))
            && (now[i] == all[i] || Sampled(all[i], state) == Some(now[i]))
  {
    if order != [] {
      LastFresh(order, i);
      VisitedEach(all, order[..|order| - 1], state, i);
    }
  }

  lemma VisitKeepsRegistered(st: State, now: State)
    requires Registered(st) && |now.all| == |st.all| && now.subscriptions == st.subscriptions
    requires now.closed == st.closed && now.interrupted == st.interrupted
    requires forall i: nat | i < |st.all| :: now.all[i].key == st.all[i].key && now.all[i].terminal == st.all[i].terminal
    ensures Registered(now)
  {
  }

  lemma ChangedKeeps(st: State, key: string, state: FileState, order: seq<nat>)
    requires Inv(st) && !st.closed && !st.interrupted && !st.faulted && Lists(order, IdsOf(st.subscriptions, key))
    ensures Inv(Changed(st, key, Success(state), order))
  {
    var now := Changed(st, key, Success(state), order);
    VisitedLength(st.all, order, state);
    forall i: nat | i < |st.all|
      ensures |now.all| == |st.all| && now.all[i].key == st.all[i].key && now.all[i].terminal == st.all[i].terminal
      ensures SubscriptionInv(i, now.all[i])
    {
      ChangedOne(st, key, state, order, i);
    }
    VisitKeepsRegistered(st, now);
    if !now.faulted {
      forall i: nat | i < |now.all| && now.all[i].terminal.None? ensures UpToDate(now, now.all[i], now.since[i]) {
        ChangedOne(st, key, state, order, i);
      }
    }
  }

  /** A live subscription is on a complete walk exactly when the sampled key is its own. */
  lemma ListedWhenLive(st: State, key: string, order: seq<nat>, i: nat)
    requires Registered(st) && Lists(order, IdsOf(st.subscriptions, key)) && i < |st.all| && st.all[i].terminal.None?
    ensures i in order <==> st.all[i].key == key
  {
    assert i in IdsOf(st.subscriptions, st.all[i].key);
  }

  lemma SampledUpToDate(st: State, now: State, s: Subscription, t: Subscription, since: nat, state: FileState)
    requires UpToDate(st, s, since) && t.key == s.key && t.current == state
    requires t.suppressed + |t.enqueued| == s.suppressed + |s.enqueued| + 1
    requires now.samples == st.samples[s.key := SamplesOf(st, s.key) + 1] && now.last == st.last[s.key := state]
    ensures UpToDate(now, t, since)
  {
  }

  /** A walk takes one subscription from one good state to another. */
  lemma VisitedInv(st: State, order: seq<nat>, state: FileState, i: nat)
    requires i < |st.all| && NoRepeats(order) && SubscriptionInv(i, st.all[i])
    ensures var now := Visited(st.all, order, state).0;
            && |now| == |st.all| && SubscriptionInv(i, now[i])
            && now[i].key == st.all[i].key && now[i].terminal == st.all[i].terminal
  {
    VisitedEach(st.all, order, state, i);
    if Sampled(st.all[i], state).Some? {
      SampledInv(i, st.all[i], state);
    }
  }

  /** A finished walk leaves a live subscription up to date. */
  lemma VisitedUpToDate(st: State, now: State, key: string, state: FileState, order: seq<nat>, i: nat)
    requires NoRepeats(order) && i < |st.all| && (i in order <==> st.all[i].key == key)
    requires SubscriptionInv(i, st.all[i]) && i < |st.since| && UpToDate(st, st.all[i], st.since[i])
    requires Visited(st.all, order, state) == (now.all, true) && |now.all| == |st.all|
    requires now.samples == st.samples[key := SamplesOf(st, key) + 1] && now.last == st.last[key := state]
    ensures UpToDate(now, now.all[i], st.since[i])
  {
    VisitedEach(st.all, order, state, i);
    if st.all[i].key == key {
      SampledInv(i, st.all[i], state);
      SampledUpToDate(st, now, st.all[i], now.all[i], st.since[i], state);
    }
  }

  lemma ChangedOne(st: State, key: string, state: FileState, order: seq<nat>, i: nat)
    requires Inv(st) && !st.closed && !st.interrupted && !st.faulted && Lists(order, IdsOf(st.subscriptions, key)) && i < |st.all|
    ensures var now := Changed(st, key, Success(state), order);
            && |now.all| == |st.all| && SubscriptionInv(i, now.all[i])
            && now.all[i].key == st.all[i].key && now.all[i].terminal == st.all[i].terminal
            && (!now.faulted && now.all[i].terminal.None? ==> UpToDate(now, now.all[i], now.since[i]))
  {
    var now := Changed(st, key, Success(state), order);
    assert SubscriptionInv(i, st.all[i]);
    VisitedInv(st, order, state, i);
    if now.all[i].terminal.None? {
      assert UpToDate(st, st.all[i], st.since[i]);
      if IdsOf(st.subscriptions, key) != {} && !now.faulted {
        ListedWhenLive(st, key, order, i);
        VisitedUpToDate(st, now, key, state, order, i);
      }
    }
  }

  lemma TerminatedEach(id: nat, s: Subscription, o: Outcome)
    requires SubscriptionInv(id, s)
    ensures SubscriptionInv(id, Terminated(s, o)) && Terminated(s, o).terminal.Some?
  {
  }

  lemma TerminatedAt(all: seq<Subscription>, ids: set<nat>, o: Outcome, i: nat)
    requires i < |all|
    ensures |TerminatedAll(all, ids, o)| == |all|
    ensures TerminatedAll(all, ids, o)[i] == if i in ids then Terminated(all[i], o) else all[i]
    ensures TerminatedAll(all, ids, o)[i].terminal.None? ==> TerminatedAll(all, ids, o)[i] == all[i]
  {
  }

  /** Terminating the registered subscriptions of some keys and forgetting those keys. */
  lemma TerminateKeeps(st: State, ids: set<nat>, o: Outcome, now: State)
    requires Inv(st) && now == st.(all := TerminatedAll(st.all, ids, o), subscriptions := now.subscriptions, closed := now.closed, interrupted := now.interrupted)
    requires Registered(now)
    ensures Inv(now)
  {
    forall i: nat | i < |now.all| ensures SubscriptionInv(i, now.all[i]) {
      assert SubscriptionInv(i, st.all[i]);
      TerminatedAt(st.all, ids, o, i);
      TerminatedEach(i, st.all[i], o);
    }
    if !now.faulted {
      forall i: nat | i < |now.all| && now.all[i].terminal.None? ensures UpToDate(now, now.all[i], now.since[i]) {
        TerminatedAt(st.all, ids, o, i);
        assert UpToDate(st, st.all[i], st.since[i]);
      }
    }
  }

  /** Forgetting a key whose subscriptions were all terminated leaves the others registered. */
  lemma ForgottenRegistered(st: State, key: string, o: Outcome)
    requires Registered(st)
    ensures Registered(st.(all := TerminatedAll(st.all, IdsOf(st.subscriptions, key), o), subscriptions := st.subscriptions - {key}))
  {
    var now := st.(all := TerminatedAll(st.all, IdsOf(st.subscriptions, key), o), subscriptions := st.subscriptions - {key});
    forall k ensures IdsOf(now.subscriptions, k) == if k == key then {} else IdsOf(st.subscriptions, k) {
    }
    forall k, id: nat | id in IdsOf(now.subscriptions, k) ensures id < |now.all| && now.all[id].key == k {
      assert id in IdsOf(st.subscriptions, k);
    }
    forall i: nat | i < |now.all| ensures now.all[i].terminal.None? <==> i in IdsOf(now.subscriptions, now.all[i].key) {
      assert st.all[i].terminal.None? <==> i in IdsOf(st.subscriptions, st.all[i].key);
      assert i in IdsOf(st.subscriptions, key) ==> st.all[i].key == key;
    }
  }

  lemma UnreadableKeeps(st: State, key: string, code: string, order: seq<nat>)
    requires Inv(st)
    ensures Inv(Changed(st, key, Failure(code), order))
  {
    var now := Changed(st, key, Failure(code), order);
    if now != st {
      ForgottenRegistered(st, key, WatchInterrupted(WatchCause(code)));
      TerminateKeeps(st, IdsOf(st.subscriptions, key), WatchInterrupted(WatchCause(code)), now);
    }
  }

  lemma EndedKeeps(st: State, o: Outcome, closed: bool, interrupted: bool)
    requires Inv(st)
    ensures Inv(Ended(st.(closed := closed, interrupted := interrupted), o))
  {
    var now := Ended(st.(closed := closed, interrupted := interrupted), o);
    forall i: nat | i < |now.all| ensures now.all[i].terminal.Some? {
      if st.all[i].terminal.None? {
        assert i in IdsOf(st.subscriptions, st.all[i].key);
        assert i in AllIds(st.subscriptions);
      }
    }
    TerminateKeeps(st, AllIds(st.subscriptions), o, now);
  }

  lemma ObservedKeeps(st: State, key: string, state: FileState)
    requires Inv(st) && !st.closed && !st.interrupted
    ensures Inv(Observed(st, key, state))
  {
    var now, id := Observed(st, key, state), |st.all|;
    OpenedInv(id, key, st.buffer, state);
    forall k ensures IdsOf(now.subscriptions, k) == IdsOf(st.subscriptions, k) + (if k == key then {id} else {}) {
    }
    forall i: nat | i < |now.all| ensures SubscriptionInv(i, now.all[i]) {
      assert i < id ==> SubscriptionInv(i, st.all[i]);
    }
    forall i: nat | i < |now.all| ensures now.all[i].terminal.None? <==> i in IdsOf(now.subscriptions, now.all[i].key) {
      assert i < id ==> (st.all[i].terminal.None? <==> i in IdsOf(st.subscriptions, st.all[i].key));
    }
    if !now.faulted {
      forall i: nat | i < |now.all| && now.all[i].terminal.None? ensures UpToDate(now, now.all[i], now.since[i]) {
        assert i < id ==> UpToDate(st, st.all[i], st.since[i]);
      }
    }
  }

  lemma WithoutIds(subscriptions: map<string, set<nat>>, key: string, id: nat, k: string)
    ensures IdsOf(Without(subscriptions, key, id), k) == if k == key then IdsOf(subscriptions, k) - {id} else IdsOf(subscriptions, k)
  {
  }

  lemma SubscriptionClosedKeeps(st: State, id: nat)
    requires Inv(st) && id < |st.all| && id in IdsOf(st.subscriptions, st.all[id].key)
    ensures Inv(Next(st, CloseSubscription(id)))
  {
    var now, key := Next(st, CloseSubscription(id)), st.all[id].key;
    assert SubscriptionInv(id, st.all[id]);
    TerminatedEach(id, st.all[id], SubscriptionClosed);
    forall k ensures IdsOf(now.subscriptions, k) == if k == key then IdsOf(st.subscriptions, k) - {id} else IdsOf(st.subscriptions, k) {
      WithoutIds(st.subscriptions, key, id, k);
    }
    assert Registered(now);
    if !now.faulted {
      forall i: nat | i < |now.all| && now.all[i].terminal.None? ensures UpToDate(now, now.all[i], now.since[i]) {
        assert UpToDate(st, st.all[i], st.since[i]);
      }
    }
  }

  /** A step of Next moves events from the channel to the caller and nothing else. */
  lemma PullKeeps(st: State, id: nat, s: Subscription)
    requires Inv(st) && id < |st.all| && SubscriptionInv(id, s)
    requires s == st.all[id].(queue := s.queue, waiting := s.waiting, delivered := s.delivered)
    ensures Inv(st.(all := st.all[id := s]))
  {
    var now := st.(all := st.all[id := s]);
    VisitKeepsRegistered(st, now);
    assert st.all[id].terminal.None? && !st.faulted ==> UpToDate(st, st.all[id], st.since[id]);
  }

  lemma PulledInv(id: nat, s: Subscription, part: PullPart)
    requires SubscriptionInv(id, s)
    ensures var t := Pulled(s, part);
            SubscriptionInv(id, t) && t == s.(queue := t.queue, waiting := t.waiting, delivered := t.delivered)
  {
    var t := Pulled(s, part);
    if t.queue != s.queue {
      assert s.queue == [s.queue[0]] + s.queue[1..];
      assert t.delivered + t.queue == s.delivered + s.queue;
    }
  }

  lemma NextKeeps(st: State, step: Step)
    requires Inv(st)
    ensures Inv(Next(st, step))
  {
    match step
    case Observe(key, sample) =>
      if !st.closed && !st.interrupted && sample.Some? && KeyMapping.ValidKey(key) {
        ObservedKeeps(st, key, sample.value);
      }
    case KeyChange(key, reading, order) =>
      if reading.Failure? {
        UnreadableKeeps(st, key, reading.error, order);
      } else if !st.closed && !st.interrupted && !st.faulted && Lists(order, IdsOf(st.subscriptions, key)) {
        ChangedKeeps(st, key, reading.value, order);
      }
    case Interrupt => EndedKeeps(st, WatchInterrupted(""), st.closed, true);
    case CloseReader => EndedKeeps(st, ReaderClosed, true, st.interrupted);
    case CloseSubscription(id) =>
      if id < |st.all| && id in IdsOf(st.subscriptions, st.all[id].key) {
        SubscriptionClosedKeeps(st, id);
      }
    case Pull(id, part) =>
      if id < |st.all| {
        assert SubscriptionInv(id, st.all[id]);
        PulledInv(id, st.all[id], part);
        PullKeeps(st, id, Pulled(st.all[id], part));
      }
  }

  ghost function Run(buffer: nat, steps: seq<Step>): State {
    if steps == [] then Start(buffer) else Next(Run(buffer, steps[..|steps| - 1]), steps[|steps| - 1])
  }

  lemma {:induction false} RunInv(buffer: nat, steps: seq<Step>)
    ensures Inv(Run(buffer, steps))
  {
    if steps != [] {
      RunInv(buffer, steps[..|steps| - 1]);
      NextKeeps(Run(buffer, steps[..|steps| - 1]), steps[|steps| - 1]);
    }
  }

  /******* What every run guarantees *******/

  /**
   * In every run a subscription's events have orders 1, 2, 3 and so on, each
   * revision follows the one before, each event changes the state, replaying
   * them from the initial state gives the current one, and deliveries are a
   * prefix of them with the rest waiting in the channel.
   */
  lemma EverySubscription(buffer: nat, steps: seq<Step>, id: nat)
    requires id < |Run(buffer, steps).all|
    ensures var s := Run(buffer, steps).all[id];
            && (forall n: nat | n < |s.enqueued| ::
                  && s.enqueued[n].revision.order == n + 1
                  && ValidateNext(RevisionAfter(id, s.enqueued, n), s.enqueued[n].revision).Follows?
                  && s.enqueued[n].state != StateAfter(s.initial, s.enqueued, n))
            && s.current == StateAfter(s.initial, s.enqueued, |s.enqueued|)
            && s.delivered + s.queue == s.enqueued && |s.queue| <= s.buffer
  {
    RunInv(buffer, steps);
    var s := Run(buffer, steps).all[id];
    assert SubscriptionInv(id, s);
    forall n: nat | n < |s.enqueued|
      ensures s.enqueued[n].revision.order == n + 1 && s.enqueued[n].state != StateAfter(s.initial, s.enqueued, n)
      ensures ValidateNext(RevisionAfter(id, s.enqueued, n), s.enqueued[n].revision).Follows?
    {
      assert EnqueuedAt(id, s.initial, s.enqueued, n);
      RevisionsFollow(id, s, n);
    }
  }

  /** Every failed delivery has been answered by the end of the reader. */
  predicate FaultsAnswered(st: State) {
    st.faulted ==> st.closed || st.interrupted
  }

  /**
   * While a subscription is live and every failed delivery has been answered,
   * suppressed plus enqueued notifications count the successful samples of its
   * key since it was opened, and its state is the last of them.
   */
  lemma NoSampleLost(buffer: nat, steps: seq<Step>, id: nat)
    requires id < |Run(buffer, steps).all|
    ensures |Run(buffer, steps).since| == |Run(buffer, steps).all|
    ensures var st := Run(buffer, steps);
            var s := st.all[id];
            s.terminal.None? && FaultsAnswered(st) ==>
              && s.suppressed + |s.enqueued| == SamplesOf(st, s.key) - st.since[id]
              && if SamplesOf(st, s.key) == st.since[id] then s.current == s.initial
                 else s.key in st.last && s.current == st.last[s.key]
  {
    RunInv(buffer, steps);
    var st := Run(buffer, steps);
    var s := st.all[id];
    assert SubscriptionInv(id, s);
    if s.terminal.None? && FaultsAnswered(st) {
      assert id in IdsOf(st.subscriptions, s.key);
      assert UpToDate(st, s, st.since[id]);
    }
  }

  /** After a failed delivery no key is sampled any more, and the interruption that follows ends every subscription. */
  lemma FaultEndsAll(buffer: nat, steps: seq<Step>, key: string, reading: Result<FileState, string>, order: seq<nat>)
    requires Run(buffer, steps).faulted
    ensures Next(Run(buffer, steps), KeyChange(key, reading, order)) == Run(buffer, steps)
    ensures var st := Next(Run(buffer, steps), Interrupt);
            FaultsAnswered(st) && forall i | 0 <= i < |st.all| :: st.all[i].terminal.Some?
  {
    var st := Next(Run(buffer, steps), Interrupt);
    RunInv(buffer, steps);
    NextKeeps(Run(buffer, steps), Interrupt);
    forall i: nat | i < |st.all| ensures st.all[i].terminal.Some? {
      assert i !in IdsOf(st.subscriptions, st.all[i].key);
    }
  }

  lemma {:induction false} SampleKeepsTerminal(all: seq<Subscription>, order: seq<nat>, state: FileState, i: nat)
    requires i < |all|
    ensures i < |Visited(all, order, state).0| && Visited(all, order, state).0[i].terminal == all[i].terminal
  {
    if order != [] {
      SampleKeepsTerminal(all, order[..|order| - 1], state, i);
    }
  }

  /** A terminal outcome never changes. */
  lemma TerminalPermanent(st: State, step: Step, id: nat)
    requires id < |st.all| && st.all[id].terminal.Some?
    ensures id < |Next(st, step).all| && Next(st, step).all[id].terminal == st.all[id].terminal
  {
    if step.KeyChange? && step.reading.Success? {
      SampleKeepsTerminal(st.all, step.order, step.reading.value, id);
    }
  }

  /** Once the reader is closed or interrupted every subscription has a terminal outcome. */
  lemma StoppedReaderEndsAll(buffer: nat, steps: seq<Step>, id: nat)
    requires id < |Run(buffer, steps).all| && (Run(buffer, steps).closed || Run(buffer, steps).interrupted)
    ensures Run(buffer, steps).all[id].terminal.Some?
  {
    RunInv(buffer, steps);
    var st := Run(buffer, steps);
    assert id !in IdsOf(st.subscriptions, st.all[id].key);
  }
}
