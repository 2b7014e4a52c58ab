/** The leased notifier send of src/eng_platform_api/services/cost_alerts.py:162-216, for one event key: any number of
    attempts interleave between their reads, transactions and deliveries, and each may stop at any point. */
module CostAlerts {
  type Time = int
  type AttemptId = nat
  type Hash = string
  type Text = string

  datatype Option<+T> = None | Some(value: T)

  /** The stored record; the empty record has none of its fields. */
  datatype Record = Record(destination: Option<Hash>, claim: Option<AttemptId>, lease: Time, text: Option<Text>,
                           result: Option<int>)

  const EMPTY := Record(None, None, 0, None, None)
  const LEASE := 120

  datatype Pc =
    | Reading
    | Reserving(text: Text)
    | Delivering(text: Text)
    | Recording(result: int)
    | Releasing

  /** An attempt: the time and the destination it started with; its claim is its own. */
  datatype Attempt = Attempt(now: Time, destination: Hash, pc: Pc)

  datatype Delivery = Delivery(sender: AttemptId, destination: Hash, text: Text)

  /** `started` remembers every attempt ever made. */
  datatype State = State(record: Record, attempts: map<AttemptId, Attempt>, started: set<AttemptId>,
                         deliveries: seq<Delivery>)

  ghost function At(s: State, a: AttemptId, pc: Pc): State
    requires a in s.attempts
  {
    s.(attempts := s.attempts[a := s.attempts[a].(pc := pc)])
  }

  // The steps

  ghost predicate Begin(s: State, t: State, a: AttemptId, now: Time, destination: Hash) {
    && a !in s.started
    && t == s.(attempts := s.attempts[a := Attempt(now, destination, Reading)], started := s.started + {a})
  }

  /** An attempt ends: it answered, raised, or was killed. */
  ghost predicate End(s: State, t: State, a: AttemptId) { t == s.(attempts := s.attempts - {a}) }

  /** The read before the reservation, and the text: the recorded one, or a newly composed one. */
  ghost predicate Read(s: State, t: State, a: AttemptId, composed: Text) {
    && a in s.attempts && s.attempts[a].pc.Reading?
    && (s.record == EMPTY || s.record.destination == Some(s.attempts[a].destination)) && s.record.result.None?
    && composed != ""
    && t == At(s, a, Reserving(if s.record.text.Some? then s.record.text.value else composed))
  }

  /** The transform of the reservation, when it does not refuse. */
  ghost function Reserve(current: Record, a: AttemptId, attempt: Attempt, text: Text): Record {
    if current.result.Some? || current.lease > attempt.now then current
    else
      Record(Some(attempt.destination), Some(a), attempt.now + LEASE,
             if current.text.Some? then current.text else Some(text), None)
  }

  /** The transaction: refused for another destination; only an attempt that then holds the claim delivers. */
  ghost predicate TryReserve(s: State, t: State, a: AttemptId) {
    && a in s.attempts && s.attempts[a].pc.Reserving?
    && (s.record == EMPTY || s.record.destination == Some(s.attempts[a].destination))
    && var reserved := Reserve(s.record, a, s.attempts[a], s.attempts[a].pc.text);
       if reserved.result.None? && reserved.claim == Some(a) && reserved.text.Some?
       then t == At(s, a, Delivering(reserved.text.value)).(record := reserved)
       else t == s.(record := reserved, attempts := s.attempts - {a})
  }

  /** The gateway call: it may have been accepted even when it looks like a failure. */
  ghost predicate Deliver(s: State, t: State, a: AttemptId, sent: bool, result: Option<int>) {
    && a in s.attempts && s.attempts[a].pc.Delivering?
    && var sends := if sent then [Delivery(a, s.attempts[a].destination, s.attempts[a].pc.text)] else [];
       t == At(s, a, if result.Some? then Recording(result.value) else Releasing).(deliveries := s.deliveries + sends)
  }

  ghost predicate Write(s: State, t: State, a: AttemptId) {
    && a in s.attempts
    && match s.attempts[a].pc
       case Recording(result) =>
         t == s.(record := s.record.(result := Some(result), lease := 0), attempts := s.attempts - {a})
       case Releasing => t == s.(record := s.record.(lease := 0), attempts := s.attempts - {a})
       case _ => false
  }

  ghost predicate Step(s: State, t: State) {
    || (exists a, now, destination :: Begin(s, t, a, now, destination))
    || (exists a :: End(s, t, a) || TryReserve(s, t, a) || Write(s, t, a))
    || (exists a, composed :: Read(s, t, a, composed))
    || (exists a, sent, result :: Deliver(s, t, a, sent, result))
  }

  ghost predicate Initial(s: State) { s == State(EMPTY, map[], {}, []) }

  ghost predicate History(h: seq<State>) {
    h != [] && Initial(h[0]) && forall i | 0 <= i < |h| - 1 :: Step(h[i], h[i + 1])
  }

  // The invariant

  /** The attempt has passed its reservation. */
  ghost predicate Reserved(pc: Pc) { pc.Delivering? || pc.Recording? || pc.Releasing? }

  ghost predicate GoodAttempt(s: State, a: AttemptId, attempt: Attempt) {
    && a in s.started
    && (Reserved(attempt.pc) ==> s.record.destination == Some(attempt.destination) && s.record.text.Some?)
    && (attempt.pc.Delivering? ==> s.record.text == Some(attempt.pc.text))
  }

  ghost predicate GoodDelivery(s: State, d: Delivery) {
    d.sender in s.started && s.record.destination == Some(d.destination) && s.record.text == Some(d.text)
  }

  /** The attempt is past its reservation, or over. */
  ghost predicate Past(s: State, a: AttemptId) { a in s.attempts ==> Reserved(s.attempts[a].pc) }

  ghost predicate Inv(s: State) {
    && (forall a | a in s.attempts :: GoodAttempt(s, a, s.attempts[a]))
    && (forall d | d in s.deliveries :: GoodDelivery(s, d))
    && (s.record == EMPTY || s.record.destination.Some?)
    && (s.record.claim.Some? ==> s.record.claim.value in s.started && Past(s, s.record.claim.value))
  }

  lemma InvStep(s: State, t: State)
    requires Inv(s) && Step(s, t)
    ensures Inv(t)
    ensures s.record.text.Some? ==> t.record.text == s.record.text
    ensures s.record.destination.Some? ==> t.record.destination == s.record.destination
    ensures s.record.result.Some? ==> t.record.result.Some?
    ensures s.deliveries <= t.deliveries && s.started <= t.started
  {
    if a :| End(s, t, a) {
    } else if a :| TryReserve(s, t, a) {
      InvReserve(s, t, a);
    } else if a :| Write(s, t, a) {
      InvWrite(s, t, a);
    } else if a, sent, result :| Deliver(s, t, a, sent, result) {
      assert GoodAttempt(s, a, s.attempts[a]);
    }
  }

  lemma InvReserve(s: State, t: State, a: AttemptId)
    requires Inv(s) && TryReserve(s, t, a)
    ensures Inv(t)
  {
    assert GoodAttempt(s, a, s.attempts[a]);
    forall b | b in t.attempts ensures GoodAttempt(t, b, t.attempts[b]) { assert GoodAttempt(s, b, s.attempts[b]); }
    forall d | d in t.deliveries ensures GoodDelivery(t, d) { assert GoodDelivery(s, d); }
  }

  lemma InvWrite(s: State, t: State, a: AttemptId)
    requires Inv(s) && Write(s, t, a)
    ensures Inv(t)
  {
    assert GoodAttempt(s, a, s.attempts[a]);
    forall b | b in t.attempts ensures GoodAttempt(t, b, t.attempts[b]) { assert GoodAttempt(s, b, s.attempts[b]); }
    forall d | d in t.deliveries ensures GoodDelivery(t, d) { assert GoodDelivery(s, d); }
  }

  lemma {:induction false} InvAlways(h: seq<State>, i: nat)
    requires History(h) && i < |h|
    ensures Inv(h[i])
  {
    hide Step, Inv;
    if i == 0 {
      InvInitial(h[0]);
    } else {
      InvAlways(h, i - 1);
      assert Step(h[i - 1], h[i - 1 + 1]);
      InvStep(h[i - 1], h[i]);
    }
  }

  lemma InvInitial(s: State)
    requires Initial(s)
    ensures Inv(s)
  {
  }

  // What is promised

  /** All deliveries under the event key, by whatever attempts, carry one text and go to one destination. */
  lemma OneMessage(h: seq<State>, i: nat, d: Delivery, e: Delivery)
    requires History(h) && i < |h| && d in h[i].deliveries && e in h[i].deliveries
    ensures d.text == e.text && d.destination == e.destination
  {
    hide Step;
    InvAlways(h, i);
    assert GoodDelivery(h[i], d) && GoodDelivery(h[i], e);
  }

  /** An attempt that has not passed its reservation. */
  ghost predicate NotReserved(s: State, a: AttemptId) { a in s.attempts ==> !Reserved(s.attempts[a].pc) }

  lemma LateStep(s: State, t: State, a: AttemptId)
    requires Step(s, t) && s.record.result.Some? && NotReserved(s, a) && a in s.started
    ensures t.record.result.Some? && NotReserved(t, a) && a in t.started
    ensures forall d | d in t.deliveries && d.sender == a :: d in s.deliveries
  {
    if b :| End(s, t, b) || TryReserve(s, t, b) || Write(s, t, b) {
    } else if b, sent, result :| Deliver(s, t, b, sent, result) {
      assert b != a;
    }
  }

  /** Once a result is recorded, an attempt that had not reserved by then never delivers. */
  lemma {:induction false} NoDeliveryAfterResult(h: seq<State>, i: nat, j: nat, a: AttemptId)
    requires History(h) && i <= j < |h| && h[i].record.result.Some?
    requires a in h[i].started && NotReserved(h[i], a)
    ensures h[j].record.result.Some? && a in h[j].started && NotReserved(h[j], a)
    ensures forall d | d in h[j].deliveries && d.sender == a :: d in h[i].deliveries
    decreases j
  {
    hide Step;
    if j > i {
      NoDeliveryAfterResult(h, i, j - 1, a);
      assert Step(h[j - 1], h[j - 1 + 1]);
      LateStep(h[j - 1], h[j], a);
    }
  }

  /** The attempt passes its reservation. */
  ghost predicate Passes(s: State, t: State, a: AttemptId) {
    a in s.attempts && s.attempts[a].pc.Reserving? && a in t.attempts && t.attempts[a].pc.Delivering?
  }

  /** Only its own transaction takes an attempt past its reservation. */
  lemma OnlyReserving(s: State, t: State, a: AttemptId)
    requires Step(s, t) && Passes(s, t, a)
    ensures TryReserve(s, t, a)
  {
  }

  /** The transaction of an attempt lets it deliver exactly when no result is recorded and no lease is running. It then
      holds a lease of its own, with the text on record, which is its own text if there was none; otherwise nothing
      changes and the attempt is over. */
  lemma ReservesExactly(h: seq<State>, i: nat, a: AttemptId)
    requires History(h) && i < |h| - 1 && TryReserve(h[i], h[i + 1], a)
    ensures var s, t, attempt := h[i], h[i + 1], h[i].attempts[a];
            var text := if s.record.text.Some? then s.record.text.value else attempt.pc.text;
            && (s.record == EMPTY || s.record.destination == Some(attempt.destination))
            && if s.record.result.None? && s.record.lease <= attempt.now then
                 && a in t.attempts && t.attempts[a].pc == Delivering(text)
                 && t.record == Record(Some(attempt.destination), Some(a), attempt.now + LEASE, Some(text), None)
               else a !in t.attempts && t.record == s.record
  {
    hide Step;
    InvAlways(h, i);
    assert GoodAttempt(h[i], a, h[i].attempts[a]);
  }

  /** An attempt goes on from its read only to the destination on record, without a result, and with the text on record
      or, if there is none, one it composed. */
  lemma ReadsExactly(h: seq<State>, i: nat, a: AttemptId)
    requires History(h) && i < |h| - 1 && a in h[i].attempts && h[i].attempts[a].pc.Reading?
    requires a in h[i + 1].attempts && h[i + 1].attempts[a] != h[i].attempts[a]
    ensures var s, t := h[i], h[i + 1];
            && t.attempts[a].pc.Reserving? && t.record == s.record && s.record.result.None?
            && (s.record == EMPTY || s.record.destination == Some(s.attempts[a].destination))
            && if s.record.text.Some? then t.attempts[a].pc.text == s.record.text.value
               else t.attempts[a].pc.text != ""
  {
    hide Step;
    InvAlways(h, i);
    assert GoodAttempt(h[i], a, h[i].attempts[a]);
    assert Step(h[i], h[i + 1]);
    ReadStep(h[i], h[i + 1], a);
  }

  lemma ReadStep(s: State, t: State, a: AttemptId)
    requires Step(s, t) && a in s.attempts && s.attempts[a].pc.Reading? && a in t.attempts && a in s.started
    requires t.attempts[a] != s.attempts[a]
    ensures exists composed :: Read(s, t, a, composed)
  {
    hide Reserve;
  }

  /** An attempt released its lease, after a result or a failure. */
  ghost predicate Releases(s: State, t: State) { exists a :: Write(s, t, a) }

  lemma LeaseStep(s: State, t: State)
    requires Step(s, t) && !Releases(s, t)
    ensures t.record.lease >= s.record.lease
  {
  }

  lemma {:induction false} LeaseGrows(h: seq<State>, i: nat, j: nat)
    requires History(h) && i <= j < |h| && forall k | i <= k < j :: !Releases(h[k], h[k + 1])
    ensures h[j].record.lease >= h[i].record.lease
    decreases j
  {
    hide Step;
    if j > i {
      LeaseGrows(h, i, j - 1);
      assert Step(h[j - 1], h[j - 1 + 1]) && !Releases(h[j - 1], h[j - 1 + 1]);
      LeaseStep(h[j - 1], h[j]);
    }
  }

  /** The lease: unless somebody released it in between, the next attempt that is granted the claim comes a whole lease
      after the one before, by its own clock. */
  lemma LeaseHolds(h: seq<State>, i: nat, j: nat, a: AttemptId, b: AttemptId)
    requires History(h) && i < j < |h| - 1 && a in h[i].attempts && b in h[j].attempts
    requires Passes(h[i], h[i + 1], a) && Passes(h[j], h[j + 1], b)
    requires forall k | i < k < j :: !Releases(h[k], h[k + 1])
    ensures h[j].attempts[b].now >= h[i].attempts[a].now + LEASE
  {
    hide Step, TryReserve, Inv;
    assert Step(h[i], h[i + 1]) && Step(h[j], h[j + 1]);
    OnlyReserving(h[i], h[i + 1], a);
    OnlyReserving(h[j], h[j + 1], b);
    ReservesExactly(h, i, a);
    ReservesExactly(h, j, b);
    LeaseGrows(h, i + 1, j);
  }

  lemma Took(s: State, t: State, a: AttemptId, text: Text, sent: bool, result: Option<int>)
    requires || Read(s, t, a, text) || TryReserve(s, t, a) || Deliver(s, t, a, sent, result) || Write(s, t, a)
             || (exists now, destination :: Begin(s, t, a, now, destination))
    ensures Step(s, t)
  {
    hide Read, TryReserve, Deliver, Write, Begin;
  }

  /** A single attempt delivers its text once and records the result. */
  lemma OneAttempt(now: Time, destination: Hash, text: Text, result: int) returns (h: seq<State>)
    requires text != "" && now >= 0
    ensures History(h)
    ensures h[|h| - 1].deliveries == [Delivery(0, destination, text)] && h[|h| - 1].record.result == Some(result)
  {
    var s0 := State(EMPTY, map[], {}, []);
    var s1 := s0.(attempts := map[0 := Attempt(now, destination, Reading)], started := {0});
    var s2 := At(s1, 0, Reserving(text));
    var s3 := At(s2, 0, Delivering(text)).(record := Record(Some(destination), Some(0), now + LEASE, Some(text), None));
    var s4 := At(s3, 0, Recording(result)).(deliveries := [Delivery(0, destination, text)]);
    var s5 := s4.(record := s4.record.(result := Some(result), lease := 0), attempts := map[]);
    assert Begin(s0, s1, 0, now, destination);
    assert Read(s1, s2, 0, text);
    assert TryReserve(s2, s3, 0);
    assert Deliver(s3, s4, 0, true, Some(result));
    assert Write(s4, s5, 0) by { assert s4.attempts - {0} == map[]; }
    hide Step, Read, TryReserve, Deliver, Write, Begin;
    Took(s0, s1, 0, text, true, None);
    Took(s1, s2, 0, text, true, None);
    Took(s2, s3, 0, text, true, None);
    Took(s3, s4, 0, text, true, Some(result));
    Took(s4, s5, 0, text, true, None);
    h := [s0, s1, s2, s3, s4, s5];
  }

  /** Somebody composed this text, at a time when none was recorded. */
  ghost predicate Composed(h: seq<State>, n: nat, text: Text) { exists k: nat, a :: k < n && Composes(h, k, a, text) }

  ghost predicate Composes(h: seq<State>, k: nat, a: AttemptId, text: Text) {
    k < |h| - 1 && h[k].record.text.None? && Read(h[k], h[k + 1], a, text)
  }

  /** Every text in play so far was composed. */
  ghost predicate AllComposed(h: seq<State>, n: nat)
    requires n < |h|
  {
    && (h[n].record.text.Some? ==> Composed(h, n, h[n].record.text.value))
    && (forall a | a in h[n].attempts && h[n].attempts[a].pc.Reserving? :: Composed(h, n, h[n].attempts[a].pc.text))
  }

  lemma ComposedStep(h: seq<State>, n: nat)
    requires n < |h| - 1 && Step(h[n], h[n + 1]) && AllComposed(h, n)
    ensures AllComposed(h, n + 1)
  {
    var s, t := h[n], h[n + 1];
    forall text | Composed(h, n, text) ensures Composed(h, n + 1, text) {
      var k: nat, a :| k < n && Composes(h, k, a, text);
      assert k < n + 1;
    }
    hide Composed;
    if a, composed :| Read(s, t, a, composed) {
      if s.record.text.None? { ComposedNow(h, n, a, composed); }
    } else if a :| TryReserve(s, t, a) {
      assert s.attempts[a].pc.Reserving?;
    }
  }

  lemma ComposedNow(h: seq<State>, n: nat, a: AttemptId, text: Text)
    requires Composes(h, n, a, text)
    ensures Composed(h, n + 1, text)
  {
  }

  lemma {:induction false} ComposedAlways(h: seq<State>, n: nat)
    requires History(h) && n < |h|
    ensures AllComposed(h, n)
  {
    hide Step;
    if n > 0 {
      hide AllComposed;
      ComposedAlways(h, n - 1);
      assert Step(h[n - 1], h[n - 1 + 1]);
      ComposedStep(h, n - 1);
    }
  }

  /** What is delivered is a text that an attempt composed while none was on record. */
  lemma DeliversWhatWasComposed(h: seq<State>, n: nat, d: Delivery)
    requires History(h) && n < |h| && d in h[n].deliveries
    ensures exists k: nat, a :: k < n && Composes(h, k, a, d.text)
  {
    hide Step;
    InvAlways(h, n);
    assert GoodDelivery(h[n], d);
    ComposedAlways(h, n);
  }
}
