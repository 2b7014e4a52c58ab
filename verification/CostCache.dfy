/** The single-flight cache _cached of src/eng_platform_api/routers/costs.py:25-59, as threads that interleave between
    its critical sections, its load and its future. */
module CostCache {
  type Key = string
  type Time = int
  type ThreadId = nat
  type FutureId = nat

  datatype Option<+T> = None | Some(value: T)

  /** How a load ends. */
  datatype Outcome = Value(value: int) | Raised(error: int)

  const TTL := 300

  /** A cached value, when it was stored and by which load. */
  datatype Cached = Cached(at: Time, value: int, source: FutureId)

  /** A future and the key it was made for. */
  datatype Future = Future(key: Key, outcome: Option<Outcome>)

  datatype Pc =
    | Calling
    | Loading(id: FutureId)
    | Loaded(id: FutureId, outcome: Outcome)
    | Resolving(id: FutureId, outcome: Outcome)
    | Waiting(id: FutureId)
    | Answered(id: FutureId, outcome: Outcome)

  datatype Thread = Thread(key: Key, pc: Pc)

  /** `owners`, `loads` and `published` remember who made each future, what its loader produced and when that was
      cached. */
  datatype State = State(cache: map<Key, Cached>, inflight: map<Key, FutureId>, futures: map<FutureId, Future>,
                         threads: map<ThreadId, Thread>,
                         owners: map<FutureId, ThreadId>, loads: map<FutureId, Outcome>,
                         published: map<FutureId, Time>, clock: Time)

  ghost function At(s: State, t: ThreadId, pc: Pc): State
    requires t in s.threads
  {
    s.(threads := s.threads[t := s.threads[t].(pc := pc)])
  }

  // The steps

  ghost predicate Call(s: State, s': State, t: ThreadId, key: Key) {
    t !in s.threads && s' == s.(threads := s.threads[t := Thread(key, Calling)])
  }

  ghost predicate Tick(s: State, s': State) { s.clock <= s'.clock && s' == s.(clock := s'.clock) }

  ghost predicate FreshIn(s: State, key: Key) { key in s.cache && s.clock - s.cache[key].at < TTL }

  /** The first critical section: a fresh answer, a future to wait for, or a new future this thread owns. */
  ghost predicate Enter(s: State, s': State, t: ThreadId, id: FutureId) {
    && t in s.threads && s.threads[t].pc.Calling?
    && var key := s.threads[t].key;
       if FreshIn(s, key) then s' == At(s, t, Answered(s.cache[key].source, Value(s.cache[key].value)))
       else if key in s.inflight then s' == At(s, t, Waiting(s.inflight[key]))
       else
         && id !in s.futures && id !in s.loads
         && s' == At(s, t, Loading(id))
                  .(futures := s.futures[id := Future(key, None)], inflight := s.inflight[key := id],
                    owners := s.owners[id := t])
  }

  ghost predicate Load(s: State, s': State, t: ThreadId, outcome: Outcome) {
    && t in s.threads && s.threads[t].pc.Loading?
    && s' == At(s, t, Loaded(s.threads[t].pc.id, outcome)).(loads := s.loads[s.threads[t].pc.id := outcome])
  }

  /** The critical section after the load: a value is cached, and either way the key is free again. */
  ghost predicate Publish(s: State, s': State, t: ThreadId) {
    && t in s.threads && s.threads[t].pc.Loaded?
    && var key, outcome := s.threads[t].key, s.threads[t].pc.outcome;
       s' == At(s, t, Resolving(s.threads[t].pc.id, outcome))
               .(cache := if outcome.Value? then s.cache[key := Cached(s.clock, outcome.value, s.threads[t].pc.id)]
                          else s.cache,
                 inflight := s.inflight - {key}, published := s.published[s.threads[t].pc.id := s.clock])
  }

  ghost predicate Resolve(s: State, s': State, t: ThreadId) {
    && t in s.threads && s.threads[t].pc.Resolving? && s.threads[t].pc.id in s.futures
    && var id, outcome := s.threads[t].pc.id, s.threads[t].pc.outcome;
       s' == At(s, t, Answered(id, outcome)).(futures := s.futures[id := s.futures[id].(outcome := Some(outcome))])
  }

  ghost predicate Receive(s: State, s': State, t: ThreadId) {
    && t in s.threads && s.threads[t].pc.Waiting? && s.threads[t].pc.id in s.futures
    && s.futures[s.threads[t].pc.id].outcome.Some?
    && s' == At(s, t, Answered(s.threads[t].pc.id, s.futures[s.threads[t].pc.id].outcome.value))
  }

  ghost predicate Step(s: State, s': State) {
    || (exists t, key :: Call(s, s', t, key))
    || Tick(s, s')
    || (exists t, id :: Enter(s, s', t, id))
    || (exists t, outcome :: Load(s, s', t, outcome))
    || (exists t :: Publish(s, s', t) || Resolve(s, s', t) || Receive(s, s', t))
  }

  ghost predicate Initial(s: State) {
    s.cache == map[] && s.inflight == map[] && s.futures == map[] && s.threads == map[] && s.loads == map[]
  }

  ghost predicate History(h: seq<State>) {
    h != [] && Initial(h[0]) && forall i | 0 <= i < |h| - 1 :: Step(h[i], h[i + 1])
  }

  // The invariant

  ghost predicate Busy(pc: Pc, id: FutureId) { (pc.Loading? || pc.Loaded?) && pc.id == id }

  ghost predicate Owns(pc: Pc, id: FutureId) { (pc.Loading? || pc.Loaded? || pc.Resolving?) && pc.id == id }

  /** A thread with something left to do of its own accord: everything but waiting and being done. */
  ghost predicate Active(pc: Pc) { pc.Calling? || pc.Loading? || pc.Loaded? || pc.Resolving? }

  ghost predicate LoadIs(s: State, id: FutureId, outcome: Outcome) { id in s.loads && s.loads[id] == outcome }

  ghost predicate FutureFor(s: State, id: FutureId, key: Key) { id in s.futures && s.futures[id].key == key }

  ghost predicate Pending(s: State, id: FutureId, key: Key) { FutureFor(s, id, key) && s.futures[id].outcome.None? }

  ghost predicate GoodThread(s: State, t: ThreadId, th: Thread) {
    match th.pc
    case Calling => true
    case Loading(id) =>
      && Pending(s, id, th.key) && id in s.owners && s.owners[id] == t
      && th.key in s.inflight && s.inflight[th.key] == id && id !in s.loads
    case Loaded(id, outcome) =>
      Pending(s, id, th.key) && id in s.owners && s.owners[id] == t && th.key in s.inflight && s.inflight[th.key] == id
      && LoadIs(s, id, outcome)
    case Resolving(id, outcome) =>
      Pending(s, id, th.key) && id in s.owners && s.owners[id] == t && LoadIs(s, id, outcome)
    case Waiting(id) => FutureFor(s, id, th.key)
    case Answered(id, outcome) => FutureFor(s, id, th.key) && LoadIs(s, id, outcome)
  }

  /** A resolved future holds what its load produced; an unresolved one has a thread at work that will resolve it. */
  ghost predicate GoodFuture(s: State, id: FutureId)
    requires id in s.futures
  {
    match s.futures[id].outcome
    case Some(outcome) => LoadIs(s, id, outcome)
    case None => id in s.owners && s.owners[id] in s.threads && Owns(s.threads[s.owners[id]].pc, id)
  }

  /** The owner of a future has not published yet. */
  ghost predicate AtWork(s: State, id: FutureId) {
    id in s.owners && s.owners[id] in s.threads && Busy(s.threads[s.owners[id]].pc, id)
  }

  ghost predicate GoodKey(s: State, key: Key) {
    && (key in s.cache ==> FutureFor(s, s.cache[key].source, key)
                           && LoadIs(s, s.cache[key].source, Value(s.cache[key].value))
                           && s.cache[key].source in s.published && s.published[s.cache[key].source] == s.cache[key].at
                           && !AtWork(s, s.cache[key].source))
    && (key in s.inflight ==> Pending(s, s.inflight[key], key) && s.inflight[key] in s.owners
                              && s.owners[s.inflight[key]] in s.threads
                              && Busy(s.threads[s.owners[s.inflight[key]]].pc, s.inflight[key]))
  }

  ghost predicate Inv(s: State) {
    && (forall t | t in s.threads :: GoodThread(s, t, s.threads[t]))
    && (forall id | id in s.futures :: GoodFuture(s, id))
    && (forall key :: GoodKey(s, key))
    && (forall id | id in s.loads :: id in s.futures)
  }

  lemma InvCall(s: State, s': State, t: ThreadId, key: Key)
    requires Inv(s) && (Call(s, s', t, key) || Tick(s, s'))
    ensures Inv(s')
  {
    forall id | id in s'.futures ensures GoodFuture(s', id) { assert GoodFuture(s, id); }
    forall k ensures GoodKey(s', k) { assert GoodKey(s, k); }
    forall u | u in s'.threads ensures GoodThread(s', u, s'.threads[u]) {
      if u in s.threads { assert GoodThread(s, u, s.threads[u]); }
    }
  }

  /** A step that changes nothing but where one thread is, and leaves no future without its owner. */
  lemma InvMove(s: State, s': State, t: ThreadId, pc: Pc)
    requires Inv(s) && t in s.threads && !Active(pc) && s' == At(s, t, pc)
    requires s.threads[t].pc.Calling? || s.threads[t].pc.Waiting?
    requires GoodThread(s, t, s.threads[t].(pc := pc))
    ensures Inv(s')
  {
    forall f | f in s'.futures ensures GoodFuture(s', f) { assert GoodFuture(s, f); }
    forall k ensures GoodKey(s', k) { assert GoodKey(s, k); }
    forall u | u in s'.threads ensures GoodThread(s', u, s'.threads[u]) {
      if u != t { assert GoodThread(s, u, s.threads[u]); }
    }
  }

  /** The step that makes a future. */
  ghost predicate Made(s: State, s': State, t: ThreadId, id: FutureId) {
    && t in s.threads && s.threads[t].pc.Calling? && s.threads[t].key !in s.inflight
    && id !in s.futures && id !in s.loads
    && s' == At(s, t, Loading(id)).(futures := s.futures[id := Future(s.threads[t].key, None)],
                                    inflight := s.inflight[s.threads[t].key := id], owners := s.owners[id := t])
  }

  lemma MadeThread(s: State, s': State, t: ThreadId, id: FutureId, u: ThreadId)
    requires Made(s, s', t, id) && u in s.threads && u != t && GoodThread(s, u, s.threads[u])
    ensures GoodThread(s', u, s'.threads[u])
  {
  }

  lemma MadeFuture(s: State, s': State, t: ThreadId, id: FutureId, f: FutureId)
    requires Made(s, s', t, id) && f in s.futures && GoodFuture(s, f)
    ensures GoodFuture(s', f)
  {
  }

  lemma MadeKey(s: State, s': State, t: ThreadId, id: FutureId, key: Key)
    requires Made(s, s', t, id) && GoodKey(s, key)
    ensures GoodKey(s', key)
  {
  }

  /** A new future: the other threads, futures and keys do not notice. */
  lemma InvOwn(s: State, s': State, t: ThreadId, id: FutureId)
    requires Inv(s) && Made(s, s', t, id)
    ensures Inv(s')
  {
    assert GoodThread(s', t, s'.threads[t]) && GoodFuture(s', id);
    hide GoodThread, GoodFuture, GoodKey;
    forall f | f in s'.futures ensures GoodFuture(s', f) { if f != id { MadeFuture(s, s', t, id, f); } }
    forall k ensures GoodKey(s', k) { MadeKey(s, s', t, id, k); }
    forall u | u in s'.threads ensures GoodThread(s', u, s'.threads[u]) { if u != t { MadeThread(s, s', t, id, u); } }
  }

  lemma InvEnter(s: State, s': State, t: ThreadId, id: FutureId)
    requires Inv(s) && Enter(s, s', t, id)
    ensures Inv(s')
  {
    var key := s.threads[t].key;
    assert GoodKey(s, key);
    hide Inv;
    if FreshIn(s, key) {
      InvMove(s, s', t, Answered(s.cache[key].source, Value(s.cache[key].value)));
    } else if key in s.inflight {
      InvMove(s, s', t, Waiting(s.inflight[key]));
    } else {
      InvOwn(s, s', t, id);
    }
  }

  lemma InvLoad(s: State, s': State, t: ThreadId, outcome: Outcome)
    requires Inv(s) && Load(s, s', t, outcome)
    ensures Inv(s')
  {
    assert GoodThread(s, t, s.threads[t]);
    forall f | f in s'.futures ensures GoodFuture(s', f) { assert GoodFuture(s, f); }
    forall k ensures GoodKey(s', k) { assert GoodKey(s, k); }
    forall u | u in s'.threads ensures GoodThread(s', u, s'.threads[u]) { assert GoodThread(s, u, s.threads[u]); }
  }

  lemma InvPublish(s: State, s': State, t: ThreadId)
    requires Inv(s) && Publish(s, s', t)
    ensures Inv(s')
  {
    assert GoodThread(s, t, s.threads[t]);
    forall f | f in s'.futures ensures GoodFuture(s', f) { assert GoodFuture(s, f); }
    forall k ensures GoodKey(s', k) { assert GoodKey(s, k); }
    forall u | u in s'.threads ensures GoodThread(s', u, s'.threads[u]) {
      assert GoodThread(s, u, s.threads[u]);
      assert GoodKey(s, s.threads[u].key);
    }
  }

  lemma InvResolve(s: State, s': State, t: ThreadId)
    requires Inv(s) && Resolve(s, s', t)
    ensures Inv(s')
  {
    assert GoodThread(s, t, s.threads[t]);
    forall f | f in s'.futures ensures GoodFuture(s', f) { assert GoodFuture(s, f); }
    forall k ensures GoodKey(s', k) { assert GoodKey(s, k); }
    forall u | u in s'.threads ensures GoodThread(s', u, s'.threads[u]) {
      if u != t { assert GoodThread(s, u, s.threads[u]); }
    }
  }

  lemma InvReceive(s: State, s': State, t: ThreadId)
    requires Inv(s) && Receive(s, s', t)
    ensures Inv(s')
  {
    assert GoodThread(s, t, s.threads[t]);
    assert GoodFuture(s, s.threads[t].pc.id);
    hide Inv;
    InvMove(s, s', t, Answered(s.threads[t].pc.id, s.futures[s.threads[t].pc.id].outcome.value));
  }

  lemma InvStep(s: State, s': State)
    requires Inv(s) && Step(s, s')
    ensures Inv(s')
  {
    hide Inv, Call, Enter, Load, Publish, Resolve, Receive;
    if t, key :| Call(s, s', t, key) {
      InvCall(s, s', t, key);
    } else if Tick(s, s') {
      InvCall(s, s', 0, "");
    } else if t, id :| Enter(s, s', t, id) {
      InvEnter(s, s', t, id);
    } else if t, outcome :| Load(s, s', t, outcome) {
      InvLoad(s, s', t, outcome);
    } else if t :| Publish(s, s', t) {
      InvPublish(s, s', t);
    } else {
      var t :| Resolve(s, s', t) || Receive(s, s', t);
      if Resolve(s, s', t) { InvResolve(s, s', t); } else { InvReceive(s, s', t); }
    }
  }

  lemma {:induction false} InvAlways(h: seq<State>, i: nat)
    requires History(h) && i < |h|
    ensures Inv(h[i])
  {
    hide Step;
    if i == 0 {
      assert Inv(h[0]);
    } else {
      hide Inv;
      InvAlways(h, i - 1);
      assert Step(h[i - 1], h[i - 1 + 1]);
      InvStep(h[i - 1], h[i]);
    }
  }

  // What is promised

  /** Two loaders never run for one key at once. */
  lemma OneLoader(h: seq<State>, i: nat, t: ThreadId, u: ThreadId)
    requires History(h) && i < |h| && t in h[i].threads && u in h[i].threads
    requires h[i].threads[t].pc.Loading? && h[i].threads[u].pc.Loading? && h[i].threads[t].key == h[i].threads[u].key
    ensures t == u
  {
    hide Step;
    InvAlways(h, i);
    assert GoodThread(h[i], t, h[i].threads[t]) && GoodThread(h[i], u, h[i].threads[u]);
  }

  /** Every answer, to an owner, a waiter or from the cache, is what one load of that very key produced; and every
      future that is resolved holds its own load's outcome, so all its waiters receive the same. */
  lemma AnswersAreLoads(h: seq<State>, i: nat, t: ThreadId)
    requires History(h) && i < |h| && t in h[i].threads && h[i].threads[t].pc.Answered?
    ensures var id := h[i].threads[t].pc.id;
            && id in h[i].futures && h[i].futures[id].key == h[i].threads[t].key
            && id in h[i].loads && h[i].loads[id] == h[i].threads[t].pc.outcome
            && (h[i].futures[id].outcome.Some? ==> h[i].futures[id].outcome.value == h[i].threads[t].pc.outcome)
  {
    hide Step;
    InvAlways(h, i);
    assert GoodThread(h[i], t, h[i].threads[t]);
    assert GoodFuture(h[i], h[i].threads[t].pc.id);
  }

  /** No future stays unresolved: while one is, its owner is at work; so when no thread is, nobody waits in vain. */
  lemma NobodyWaitsInVain(h: seq<State>, i: nat)
    requires History(h) && i < |h|
    requires forall t | t in h[i].threads :: !Active(h[i].threads[t].pc)
    ensures forall id | id in h[i].futures :: h[i].futures[id].outcome.Some?
    ensures h[i].inflight == map[]
    ensures forall t | t in h[i].threads && h[i].threads[t].pc.Waiting? ::
              h[i].threads[t].pc.id in h[i].futures && h[i].futures[h[i].threads[t].pc.id].outcome.Some?
  {
    hide Step;
    InvAlways(h, i);
    forall id | id in h[i].futures ensures h[i].futures[id].outcome.Some? { assert GoodFuture(h[i], id); }
    forall key ensures key !in h[i].inflight { assert GoodKey(h[i], key); }
    forall t | t in h[i].threads && h[i].threads[t].pc.Waiting? ensures h[i].threads[t].pc.id in h[i].futures {
      assert GoodThread(h[i], t, h[i].threads[t]);
    }
  }

  /** The step in which a thread enters: an answer from the cache was published less than the lifetime ago, and a load
      is started only when there is no such answer and nobody loads the key already. */
  lemma FreshOrLoading(h: seq<State>, i: nat, t: ThreadId, id: FutureId)
    requires History(h) && i < |h| - 1 && Enter(h[i], h[i + 1], t, id)
    ensures t in h[i + 1].threads
    ensures var pc := h[i + 1].threads[t].pc;
            && (pc.Answered? ==> pc.id in h[i].published && h[i].clock - h[i].published[pc.id] < TTL)
            && (pc.Loading? ==> forall u | u in h[i].threads && h[i].threads[u].key == h[i].threads[t].key ::
                                  !h[i].threads[u].pc.Loading?)
  {
    hide Step;
    InvAlways(h, i);
    assert GoodKey(h[i], h[i].threads[t].key);
    forall u | u in h[i].threads ensures GoodThread(h[i], u, h[i].threads[u]) {}
  }

  /** The key has an entry published at this time or later. */
  predicate PublishedSince(s: State, key: Key, time: Time) {
    key in s.cache && time <= s.cache[key].at && time <= s.clock
  }

  lemma StaysPublished(s: State, s': State, key: Key, time: Time)
    requires Step(s, s') && PublishedSince(s, key, time)
    ensures PublishedSince(s', key, time)
  {
    hide Call, Tick, Enter, Load, Publish, Resolve, Receive;
    if t, k :| Call(s, s', t, k) {
      EntryKept(s, s', t);
    } else if Tick(s, s') {
      EntryKept(s, s', 0);
    } else if t, id :| Enter(s, s', t, id) {
      EntryKeptOnEntering(s, s', t, id);
    } else if t, outcome :| Load(s, s', t, outcome) {
      EntryKept(s, s', t);
    } else if t :| Publish(s, s', t) {
      EntryRenewed(s, s', t, key, time);
    } else {
      var t :| Resolve(s, s', t) || Receive(s, s', t);
      EntryKept(s, s', t);
    }
  }

  lemma EntryKept(s: State, s': State, t: ThreadId)
    requires (exists key :: Call(s, s', t, key)) || Tick(s, s') || (exists outcome :: Load(s, s', t, outcome))
             || Resolve(s, s', t) || Receive(s, s', t)
    ensures s'.cache == s.cache && s'.clock >= s.clock
  {
    hide At;
    if t in s.threads {
      forall pc ensures At(s, t, pc).cache == s.cache && At(s, t, pc).clock == s.clock { AtKeeps(s, t, pc); }
    }
  }

  lemma AtKeeps(s: State, t: ThreadId, pc: Pc)
    requires t in s.threads
    ensures At(s, t, pc).cache == s.cache && At(s, t, pc).clock == s.clock
  {
  }

  lemma EntryKeptOnEntering(s: State, s': State, t: ThreadId, id: FutureId)
    requires Enter(s, s', t, id)
    ensures s'.cache == s.cache && s'.clock == s.clock
  {
    hide At;
    var key := s.threads[t].key;
    if FreshIn(s, key) {
      AtKeeps(s, t, Answered(s.cache[key].source, Value(s.cache[key].value)));
    } else if key in s.inflight {
      AtKeeps(s, t, Waiting(s.inflight[key]));
    } else {
      AtKeeps(s, t, Loading(id));
    }
  }

  lemma EntryRenewed(s: State, s': State, t: ThreadId, key: Key, time: Time)
    requires Publish(s, s', t) && PublishedSince(s, key, time)
    ensures PublishedSince(s', key, time)
  {
  }

  lemma {:induction false} PublishedOn(h: seq<State>, i: nat, j: nat, key: Key, time: Time)
    requires History(h) && i <= j < |h| && PublishedSince(h[i], key, time)
    ensures PublishedSince(h[j], key, time)
    decreases j
  {
    hide Step, PublishedSince;
    if i < j {
      PublishedOn(h, i, j - 1, key, time);
      assert Step(h[j - 1], h[j - 1 + 1]);
      StaysPublished(h[j - 1], h[j], key, time);
    }
  }

  /** A value that was loaded answers every call for its key within the lifetime, or a later value does; nobody loads
      the key again or waits. */
  lemma ServedWithinLifetime(h: seq<State>, i: nat, j: nat, t: ThreadId, u: ThreadId, id: FutureId)
    requires History(h) && i < j < |h| - 1 && Publish(h[i], h[i + 1], t) && h[i].threads[t].pc.outcome.Value?
    requires Enter(h[j], h[j + 1], u, id) && h[j].threads[u].key == h[i].threads[t].key
    requires h[j].clock - h[i].clock < TTL
    ensures h[j + 1].threads[u].pc.Answered? && h[j + 1].threads[u].pc.outcome.Value?
    ensures var source := h[j + 1].threads[u].pc.id;
            source in h[j].published && h[i].clock <= h[j].published[source]
  {
    hide Step;
    PublishedOn(h, i + 1, j, h[i].threads[t].key, h[i].clock);
    InvAlways(h, j);
    assert GoodKey(h[j], h[i].threads[t].key);
  }

  lemma Took(s: State, s': State, t: ThreadId, id: FutureId, outcome: Outcome)
    requires || Enter(s, s', t, id) || Load(s, s', t, outcome) || Publish(s, s', t) || Resolve(s, s', t)
             || Receive(s, s', t) || (exists key :: Call(s, s', t, key))
    ensures Step(s, s')
  {
    hide Call, Enter, Load, Publish, Resolve, Receive, Tick;
  }

  /** One thread loads a key, and another waits for it. */
  ghost function Waited(key: Key, clock: Time): State {
    State(map[], map[key := 0], map[0 := Future(key, None)],
          map[0 := Thread(key, Loading(0)), 1 := Thread(key, Waiting(0))], map[0 := 0], map[], map[], clock)
  }

  /** Two threads call for a key; the first one is to load it, the second one waits. */
  lemma BothEnter(key: Key, clock: Time) returns (h: seq<State>)
    ensures History(h) && |h| == 5 && h[0].clock == clock && h[4] == Waited(key, clock)
  {
    var s0 := State(map[], map[], map[], map[], map[], map[], map[], clock);
    var s1 := s0.(threads := map[0 := Thread(key, Calling)]);
    var s2 := s0.(threads := map[0 := Thread(key, Calling), 1 := Thread(key, Calling)]);
    var s3 := State(map[], map[key := 0], map[0 := Future(key, None)],
                    map[0 := Thread(key, Loading(0)), 1 := Thread(key, Calling)], map[0 := 0], map[], map[], clock);
    var s4 := Waited(key, clock);
    hide Step;
    assert Call(s0, s1, 0, key);
    Took(s0, s1, 0, 0, Raised(0));
    assert Call(s1, s2, 1, key);
    Took(s1, s2, 1, 0, Raised(0));
    assert Enter(s2, s3, 0, 0);
    Took(s2, s3, 0, 0, Raised(0));
    assert Enter(s3, s4, 1, 0);
    Took(s3, s4, 1, 0, Raised(0));
    h := [s0, s1, s2, s3, s4];
  }

  lemma WaitedIs(key: Key, clock: Time)
    ensures var s := Waited(key, clock);
            && s.inflight == map[key := 0] && s.published == map[] && s.cache == map[] && s.clock == clock
            && s.futures == map[0 := Future(key, None)]
  {
  }

  lemma LoadEnds(key: Key, outcome: Outcome, clock: Time, s: State) returns (s': State)
    requires s == Waited(key, clock)
    ensures Step(s, s')
    ensures s' == s.(threads := map[0 := Thread(key, Loaded(0, outcome)), 1 := Thread(key, Waiting(0))],
                     loads := map[0 := outcome])
  {
    s' := s.(threads := map[0 := Thread(key, Loaded(0, outcome)), 1 := Thread(key, Waiting(0))],
             loads := map[0 := outcome]);
    assert Load(s, s', 0, outcome);
    hide Step, Load;
    Took(s, s', 0, 0, outcome);
  }

  lemma Publishes(key: Key, outcome: Outcome, s: State, cache: map<Key, Cached>) returns (s': State)
    requires s.threads == map[0 := Thread(key, Loaded(0, outcome)), 1 := Thread(key, Waiting(0))]
    requires s.inflight == map[key := 0] && s.published == map[] && s.cache == map[]
    requires cache == if outcome.Value? then map[key := Cached(s.clock, outcome.value, 0)] else map[]
    ensures Step(s, s')
    ensures s' == s.(threads := map[0 := Thread(key, Resolving(0, outcome)), 1 := Thread(key, Waiting(0))],
                     cache := cache, inflight := map[], published := map[0 := s.clock])
  {
    s' := s.(threads := map[0 := Thread(key, Resolving(0, outcome)), 1 := Thread(key, Waiting(0))],
             cache := cache, inflight := map[], published := map[0 := s.clock]);
    assert s.inflight - {key} == map[];
    assert Publish(s, s', 0);
    hide Step, Publish;
    Took(s, s', 0, 0, outcome);
  }

  lemma Resolves(key: Key, outcome: Outcome, s: State) returns (s': State)
    requires s.threads == map[0 := Thread(key, Resolving(0, outcome)), 1 := Thread(key, Waiting(0))]
    requires s.futures == map[0 := Future(key, None)]
    ensures Step(s, s')
    ensures s' == s.(threads := map[0 := Thread(key, Answered(0, outcome)), 1 := Thread(key, Waiting(0))],
                     futures := map[0 := Future(key, Some(outcome))])
  {
    s' := s.(threads := map[0 := Thread(key, Answered(0, outcome)), 1 := Thread(key, Waiting(0))],
             futures := map[0 := Future(key, Some(outcome))]);
    assert Resolve(s, s', 0);
    hide Step, Resolve;
    Took(s, s', 0, 0, outcome);
  }

  lemma Receives(key: Key, outcome: Outcome, s: State) returns (s': State)
    requires s.threads == map[0 := Thread(key, Answered(0, outcome)), 1 := Thread(key, Waiting(0))]
    requires s.futures == map[0 := Future(key, Some(outcome))]
    ensures Step(s, s')
    ensures s' == s.(threads := map[0 := Thread(key, Answered(0, outcome)), 1 := Thread(key, Answered(0, outcome))])
  {
    s' := s.(threads := map[0 := Thread(key, Answered(0, outcome)), 1 := Thread(key, Answered(0, outcome))]);
    assert Receive(s, s', 1);
    hide Step, Receive;
    Took(s, s', 1, 0, outcome);
  }

  /** Two calls for one key, however the load ends: one loads, the other waits, and both get the outcome. */
  lemma TwoCalls(key: Key, outcome: Outcome, clock: Time) returns (h: seq<State>)
    ensures History(h) && h[0].clock == clock
    ensures var last := h[|h| - 1];
            && last.threads == map[0 := Thread(key, Answered(0, outcome)), 1 := Thread(key, Answered(0, outcome))]
            && last.inflight == map[]
            && last.cache == if outcome.Value? then map[key := Cached(clock, outcome.value, 0)] else map[]
  {
    hide Step, Waited;
    var a := BothEnter(key, clock);
    var cache := if outcome.Value? then map[key := Cached(clock, outcome.value, 0)] else map[];
    var s1 := LoadEnds(key, outcome, clock, a[4]);
    WaitedIs(key, clock);
    var s2 := Publishes(key, outcome, s1, cache);
    var s3 := Resolves(key, outcome, s2);
    var s4 := Receives(key, outcome, s3);
    h := a + [s1, s2, s3, s4];
    assert h[4] == a[4] && h[5] == s1 && h[6] == s2 && h[7] == s3 && h[8] == s4;
    forall i | 0 <= i < |h| - 1 ensures Step(h[i], h[i + 1]) {
      if i < 4 { assert h[i] == a[i] && h[i + 1] == a[i + 1] && Step(a[i], a[i + 1]); }
    }
  }
}
