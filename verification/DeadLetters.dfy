/**
 * The import of the legacy dead-letter queue into the durable ledger, as a transition
 * system: importers take, record and acknowledge one message at a time; each may fail or
 * crash between any two of these, be run again, or run beside another importer, while
 * producers publish and operators work on ledger rows.
 */
module DeadLetterImport {
  import opened Options
  import opened Counting

  /** One physical message; `key` is its deduplication digest, `deaths` its death count, `headers` its safe headers. */
  datatype Message = Message(uid: nat, key: nat, deaths: nat, headers: string)

  datatype Status = Unresolved | RecoveryQueued | Resolved | Archived

  datatype Row = Row(
    id: nat, key: nat, deaths: nat, headers: string, status: Status, recoveryItem: Option<nat>,
    resolution: Option<string>)

  datatype Phase = Idle | Holding(message: Message) | Recorded(message: Message) | Ended

  datatype Importer = Importer(limit: nat, imported: nat, phase: Phase)

  /** `recorded` lists the committed upserts, `acked` the acknowledged messages, both in order. */
  datatype State = State(
    published: set<Message>, queue: seq<Message>, importers: map<nat, Importer>, ledger: seq<Row>,
    recorded: seq<Message>, acked: seq<Message>)

  datatype Event =
    | Publish(message: Message)
    | Start(r: nat, limit: nat)
    | Get(r: nat)
    | Record(r: nat, rowId: nat)
    | Acknowledge(r: nat)
    | Requeue(r: nat, position: nat)
    | Finish(r: nat)
    | Operate(key: nat, status: Status, recoveryItem: Option<nat>, resolution: Option<string>)

  const INITIAL := State({}, [], map[], [], [], [])

  // ---- The ledger ----

  function Find(ledger: seq<Row>, key: nat): (i: Option<nat>)
    ensures i.Some? ==> i.value < |ledger| && ledger[i.value].key == key
    ensures i.None? ==> forall j | 0 <= j < |ledger| :: ledger[j].key != key
  {
    if ledger == [] then None
    else if ledger[|ledger| - 1].key == key then Some(|ledger| - 1)
    else Find(ledger[..|ledger| - 1], key)
  }

  function Reopen(row: Row, m: Message): Row {
    var counted := row.(deaths := if m.deaths > row.deaths then m.deaths else row.deaths, headers := m.headers);
    if row.status == Resolved then counted.(status := Unresolved, recoveryItem := None, resolution := None) else counted
  }

  /** INSERT ... ON CONFLICT (deduplication_key) DO UPDATE. */
  function Upsert(ledger: seq<Row>, m: Message, rowId: nat): seq<Row> {
    match Find(ledger, m.key)
    case None => ledger + [Row(rowId, m.key, m.deaths, m.headers, Unresolved, None, None)]
    case Some(i) => ledger[i := Reopen(ledger[i], m)]
  }

  ghost predicate OneRowPerKey(ledger: seq<Row>) {
    forall i, j | 0 <= i < j < |ledger| :: ledger[i].key != ledger[j].key
  }

  // ---- Transitions ----

  function Held(s: State, r: nat): Option<Message> {
    if r in s.importers && (s.importers[r].phase.Holding? || s.importers[r].phase.Recorded?)
    then Some(s.importers[r].phase.message) else None
  }

  predicate Enabled(s: State, e: Event) {
    match e
    case Publish(m) => m !in s.published
    case Start(r, limit) => r !in s.importers && limit >= 1
    case Get(r) =>
      && r in s.importers && s.importers[r].phase.Idle?
      && s.importers[r].imported < s.importers[r].limit && s.queue != []
    case Record(r, _) => r in s.importers && s.importers[r].phase.Holding?
    case Acknowledge(r) => r in s.importers && s.importers[r].phase.Recorded?
    case Requeue(r, position) => Held(s, r).Some? && position <= |s.queue|
    case Finish(r) => r in s.importers && s.importers[r].phase.Idle?
    case Operate(key, _, _, _) => Find(s.ledger, key).Some?
  }

  function Apply(s: State, e: Event): State
    requires Enabled(s, e)
  {
    match e
    case Publish(m) => s.(published := s.published + {m}, queue := s.queue + [m])
    case Start(r, limit) => s.(importers := s.importers[r := Importer(limit, 0, Idle)])
    case Get(r) =>
      s.(queue := s.queue[1..], importers := s.importers[r := s.importers[r].(phase := Holding(s.queue[0]))])
    case Record(r, rowId) =>
      var m := s.importers[r].phase.message;
      s.(ledger := Upsert(s.ledger, m, rowId), recorded := s.recorded + [m],
         importers := s.importers[r := s.importers[r].(phase := Recorded(m))])
    case Acknowledge(r) =>
      s.(acked := s.acked + [s.importers[r].phase.message],
         importers := s.importers[r := s.importers[r].(phase := Idle, imported := s.importers[r].imported + 1)])
    case Requeue(r, position) =>
      s.(queue := s.queue[..position] + [s.importers[r].phase.message] + s.queue[position..],
         importers := s.importers[r := s.importers[r].(phase := Ended)])
    case Finish(r) => s.(importers := s.importers[r := s.importers[r].(phase := Ended)])
    case Operate(key, status, item, resolution) =>
      var i := Find(s.ledger, key).value;
      s.(ledger := s.ledger[i := s.ledger[i].(status := status, recoveryItem := item, resolution := resolution)])
  }

  function Run(s: State, log: seq<Event>): Option<State>
    decreases |log|
  {
    if log == [] then Some(s)
    else if Enabled(s, log[0]) then Run(Apply(s, log[0]), log[1..])
    else None
  }

  lemma {:induction false} RunConcat(s: State, a: seq<Event>, b: seq<Event>)
    requires Run(s, a).Some?
    ensures Run(s, a + b) == Run(Run(s, a).value, b)
    decreases |a|
  {
    if a == [] {
      assert a + b == b;
    } else {
      assert (a + b)[1..] == a[1..] + b;
      RunConcat(Apply(s, a[0]), a[1..], b);
    }
  }

  // ---- Where messages are ----

  ghost predicate QueueApart(s: State) {
    && Distinct(s.queue) && Distinct(s.acked)
    && (forall m | m in s.queue :: m !in s.acked)
  }

  ghost predicate HandsApart(s: State) {
    && (forall r | Held(s, r).Some? :: Held(s, r).value !in s.queue && Held(s, r).value !in s.acked)
    && (forall r, q | r != q && Held(s, r).Some? && Held(s, q).Some? :: Held(s, r).value != Held(s, q).value)
  }

  /** No message is in two places. */
  ghost predicate Exclusive(s: State) { QueueApart(s) && HandsApart(s) }

  ghost predicate IsHeld(s: State, m: Message) { exists r :: Held(s, r) == Some(m) }

  /** Nothing disappears and nothing is made up. */
  ghost predicate Accounted(s: State) {
    forall m :: m in s.published <==> m in s.queue || m in s.acked || IsHeld(s, m)
  }

  /** What a step does to the messages in hand. */
  lemma StepHeld(s: State, e: Event, q: nat)
    requires Enabled(s, e)
    ensures Held(Apply(s, e), q) ==
            if e == Get(q) then Some(s.queue[0])
            else if e == Acknowledge(q) || (e.Requeue? && e.r == q) then None
            else Held(s, q)
  {
    hide Upsert, Find;
  }

  lemma StepKeepsQueueApart(s: State, e: Event)
    requires Enabled(s, e) && Exclusive(s) && Accounted(s)
    ensures QueueApart(Apply(s, e))
  {
    hide Held, Upsert, Find;
    if e.Acknowledge? || e.Requeue? { HeldInPhase(s, e.r); }
    if e.Requeue? {
      DistinctInsert(s.queue, e.position, s.importers[e.r].phase.message);
      Reinserted(s.queue, e.position, s.importers[e.r].phase.message);
    }
  }

  lemma StepKeepsHandsApart(s: State, e: Event)
    requires Enabled(s, e) && Exclusive(s) && Accounted(s)
    ensures HandsApart(Apply(s, e))
  {
    hide Held, Upsert, Find;
    var t := Apply(s, e);
    forall q ensures Held(t, q) == (if e == Get(q) then Some(s.queue[0])
                                    else if e == Acknowledge(q) || (e.Requeue? && e.r == q) then None else Held(s, q))
    {
      StepHeld(s, e, q);
    }
    StepQueue(s, e);
    if e.Publish? { assert forall r | Held(s, r) == Some(e.message) :: IsHeld(s, e.message); }
    if e.Acknowledge? { HeldInPhase(s, e.r); }
  }

  lemma HeldInPhase(s: State, r: nat)
    ensures Held(s, r).Some? <==> r in s.importers && (s.importers[r].phase.Holding? || s.importers[r].phase.Recorded?)
    ensures Held(s, r).Some? ==> Held(s, r) == Some(s.importers[r].phase.message)
  {
  }

  lemma StepQueue(s: State, e: Event)
    requires Enabled(s, e)
    ensures forall m :: m in Apply(s, e).queue ==>
              m in s.queue || e == Publish(m) || (e.Requeue? && Held(s, e.r) == Some(m))
    ensures e.Get? ==> s.queue[0] in s.queue
  {
    if e.Requeue? { Reinserted(s.queue, e.position, Held(s, e.r).value); }
  }

  lemma Reinserted(q: seq<Message>, p: nat, m: Message)
    requires p <= |q|
    ensures forall x :: x in q[..p] + [m] + q[p..] <==> x in q || x == m
  {
    assert q == q[..p] + q[p..];
  }

  lemma DistinctInsert(q: seq<Message>, p: nat, m: Message)
    requires p <= |q| && Distinct(q) && m !in q
    ensures Distinct(q[..p] + [m] + q[p..])
  {
    var t := q[..p] + [m] + q[p..];
    forall i, j | 0 <= i < j < |t| ensures t[i] != t[j] {
      assert t[i] == if i < p then q[i] else if i == p then m else q[i - 1];
      assert t[j] == if j < p then q[j] else if j == p then m else q[j - 1];
    }
  }

  lemma {:induction false} StepKeepsAccounted(s: State, e: Event)
    requires Enabled(s, e) && Accounted(s)
    ensures Accounted(Apply(s, e))
  {
    var t := Apply(s, e);
    forall m ensures m in t.published <==> m in t.queue || m in t.acked || IsHeld(t, m) {
      if IsHeld(s, m) {
        var q :| Held(s, q) == Some(m);
        if Held(t, q) == Some(m) { assert IsHeld(t, m); }
      }
      if IsHeld(t, m) {
        var q :| Held(t, q) == Some(m);
        if Held(s, q) == Some(m) { assert IsHeld(s, m); }
      }
      match e {
        case Get(r) =>
          assert Held(t, r) == Some(s.queue[0]) && s.queue == [s.queue[0]] + t.queue;
          assert m == s.queue[0] ==> IsHeld(t, m);
        case Acknowledge(r) => assert IsHeld(s, Held(s, r).value);
        case Requeue(r, p) =>
          Reinserted(s.queue, p, Held(s, r).value);
          assert IsHeld(s, Held(s, r).value);
        case _ =>
      }
    }
  }

  // ---- What the ledger says ----

  /** The highest death count among recorded deliveries of a key. */
  function MaxDeaths(recorded: seq<Message>, key: nat): (d: Option<nat>)
    ensures d.Some? <==> exists m :: m in recorded && m.key == key
  {
    if recorded == [] then None else
      var init, last := recorded[..|recorded| - 1], recorded[|recorded| - 1];
      assert recorded == init + [last];
      if last.key != key then MaxDeaths(init, key)
      else
        assert last in recorded;
        match MaxDeaths(init, key)
        case None => Some(last.deaths)
        case Some(d) => Some(if last.deaths > d then last.deaths else d)
  }

  /** The headers of the latest recorded delivery of a key. */
  function LastHeaders(recorded: seq<Message>, key: nat): Option<string> {
    if recorded == [] then None
    else if recorded[|recorded| - 1].key == key then Some(recorded[|recorded| - 1].headers)
    else LastHeaders(recorded[..|recorded| - 1], key)
  }

  ghost predicate RowTells(row: Row, recorded: seq<Message>) {
    MaxDeaths(recorded, row.key) == Some(row.deaths) && LastHeaders(recorded, row.key) == Some(row.headers)
  }

  /** One row for each recorded key, with the highest death count and the latest headers seen. */
  ghost predicate LedgerTells(ledger: seq<Row>, recorded: seq<Message>) {
    && OneRowPerKey(ledger)
    && (forall i | 0 <= i < |ledger| :: RowTells(ledger[i], recorded))
    && (forall k :: MaxDeaths(recorded, k).Some? ==> Find(ledger, k).Some?)
  }

  lemma {:induction false} UpsertKeepsLedger(ledger: seq<Row>, recorded: seq<Message>, m: Message, rowId: nat)
    requires LedgerTells(ledger, recorded)
    ensures LedgerTells(Upsert(ledger, m, rowId), recorded + [m])
  {
    var after, more := Upsert(ledger, m, rowId), recorded + [m];
    assert more[..|recorded|] == recorded;
    forall i | 0 <= i < |after| ensures RowTells(after[i], more) {
      if i < |ledger| { assert RowTells(ledger[i], recorded); }
    }
    forall k | MaxDeaths(more, k).Some? ensures Find(after, k).Some? {
      if k == m.key {
        var i := if Find(ledger, k).Some? then Find(ledger, k).value else |ledger|;
        assert after[i].key == k;
      } else {
        var i := Find(ledger, k).value;
        assert after[i].key == k;
      }
    }
  }

  /**
   * An upsert keeps every other row. On the row of its key it changes only the death count and
   * takes over the headers, unless the row was resolved: then it is reopened. Done again it changes nothing.
   */
  lemma UpsertLaws(ledger: seq<Row>, m: Message, rowId: nat, other: nat)
    requires OneRowPerKey(ledger)
    ensures var after := Upsert(ledger, m, rowId);
            && (forall i | 0 <= i < |ledger| && ledger[i].key != m.key :: after[i] == ledger[i])
            && (forall i | 0 <= i < |ledger| && ledger[i].key == m.key ::
                  && after[i].deaths >= ledger[i].deaths && after[i].deaths >= m.deaths
                  && after[i].deaths in {ledger[i].deaths, m.deaths}
                  && after[i].headers == m.headers
                  && after[i].(deaths := ledger[i].deaths, headers := ledger[i].headers) ==
                     if ledger[i].status == Resolved
                     then ledger[i].(status := Unresolved, recoveryItem := None, resolution := None) else ledger[i])
            && |after| == |ledger| + (if Find(ledger, m.key).None? then 1 else 0)
            && (Find(ledger, m.key).None? ==>
                  after[|ledger|] == Row(rowId, m.key, m.deaths, m.headers, Unresolved, None, None))
            && Upsert(after, m, other) == after
  {
    UpsertTwice(ledger, m, rowId, other);
  }

  lemma UpsertTwice(ledger: seq<Row>, m: Message, rowId: nat, other: nat)
    requires OneRowPerKey(ledger)
    ensures Upsert(Upsert(ledger, m, rowId), m, other) == Upsert(ledger, m, rowId)
  {
    var after := Upsert(ledger, m, rowId);
    var i := if Find(ledger, m.key).Some? then Find(ledger, m.key).value else |ledger|;
    assert after[i].key == m.key;
    assert Find(after, m.key) == Some(i);
    assert after[i := Reopen(after[i], m)] == after;
  }

  /** Redeliveries do not inflate a death count: it depends only on which messages were recorded. */
  lemma RedeliveryCountsOnce(a: seq<Message>, b: seq<Message>, key: nat)
    requires forall m :: m in a <==> m in b
    ensures MaxDeaths(a, key) == MaxDeaths(b, key)
  {
    MaxDeathsIsMax(a, key);
    MaxDeathsIsMax(b, key);
  }

  lemma {:induction false} MaxDeathsIsMax(recorded: seq<Message>, key: nat)
    ensures forall m | m in recorded && m.key == key :: m.deaths <= MaxDeaths(recorded, key).GetOr(0)
    ensures MaxDeaths(recorded, key).Some? ==>
              exists m :: m in recorded && m.key == key && Some(m.deaths) == MaxDeaths(recorded, key)
  {
    if recorded != [] {
      var init, last := recorded[..|recorded| - 1], recorded[|recorded| - 1];
      MaxDeathsIsMax(init, key);
      assert recorded == init + [last];
      if last.key == key && MaxDeaths(recorded, key) == Some(last.deaths) {
        assert last in recorded;
      } else if MaxDeaths(init, key).Some? {
        var m :| m in init && m.key == key && Some(m.deaths) == MaxDeaths(init, key);
        assert m in recorded;
      }
    }
  }

  // ---- Invariants of every run ----

  ghost predicate RecordedFirst(s: State) {
    && (forall m | m in s.acked :: m in s.recorded)
    && (forall m | m in s.recorded :: m in s.published)
    && (forall r | r in s.importers && s.importers[r].phase.Recorded? :: s.importers[r].phase.message in s.recorded)
  }

  ghost predicate WithinLimits(s: State) {
    forall r | r in s.importers ::
      s.importers[r].imported + (if Held(s, r).Some? then 1 else 0) <= s.importers[r].limit
  }

  ghost predicate Inv(s: State) {
    Exclusive(s) && Accounted(s) && RecordedFirst(s) && LedgerTells(s.ledger, s.recorded) && WithinLimits(s)
  }

  lemma {:induction false} OperateKeepsLedger(ledger: seq<Row>, recorded: seq<Message>, i: nat, row: Row)
    requires LedgerTells(ledger, recorded) && i < |ledger|
    requires var was := ledger[i];
             row == was.(status := row.status, recoveryItem := row.recoveryItem, resolution := row.resolution)
    ensures LedgerTells(ledger[i := row], recorded)
  {
    var after := ledger[i := row];
    forall j | 0 <= j < |after| ensures RowTells(after[j], recorded) { assert RowTells(ledger[j], recorded); }
    forall k | MaxDeaths(recorded, k).Some? ensures Find(ledger[i := row], k).Some? {
      var j := Find(ledger, k).value;
      assert ledger[i := row][j].key == k;
    }
  }

  lemma StepKeepsInv(s: State, e: Event)
    requires Enabled(s, e) && Inv(s)
    ensures Inv(Apply(s, e))
  {
    var t := Apply(s, e);
    StepKeepsQueueApart(s, e);
    StepKeepsHandsApart(s, e);
    StepKeepsAccounted(s, e);
    StepKeepsRecordedFirst(s, e);
    assert LedgerTells(t.ledger, t.recorded) by {
      if e.Record? { UpsertKeepsLedger(s.ledger, s.recorded, s.importers[e.r].phase.message, e.rowId); }
      if e.Operate? {
        var i := Find(s.ledger, e.key).value;
        OperateKeepsLedger(s.ledger, s.recorded, i, t.ledger[i]);
      }
    }
  }

  lemma StepKeepsRecordedFirst(s: State, e: Event)
    requires Enabled(s, e) && RecordedFirst(s) && Accounted(s)
    ensures RecordedFirst(Apply(s, e))
  {
    if e.Record? {
      assert Held(s, e.r) == Some(s.importers[e.r].phase.message);
      assert IsHeld(s, s.importers[e.r].phase.message);
    }
  }

  lemma {:induction false} RunKeepsInv(s: State, log: seq<Event>)
    requires Inv(s) && Run(s, log).Some?
    ensures Inv(Run(s, log).value)
    decreases |log|
  {
    if log != [] {
      StepKeepsInv(s, log[0]);
      RunKeepsInv(Apply(s, log[0]), log[1..]);
    }
  }

  /** A row was made from published messages: one of them has its key and its death count. */
  ghost predicate ComesFrom(row: Row, published: set<Message>) {
    exists m | m in published :: m.key == row.key && m.deaths == row.deaths
  }

  /**
   * In every reachable state each published message is in exactly one place: queued, held by
   * one importer, or acknowledged. What is acknowledged is in the ledger, under the only row of
   * its key, with a death count at least its own.
   */
  lemma ImportIsSafe(log: seq<Event>)
    requires Run(INITIAL, log).Some?
    ensures var s := Run(INITIAL, log).value;
            && (forall m :: m in s.published <==> m in s.queue || m in s.acked || IsHeld(s, m))
            && Exclusive(s) && OneRowPerKey(s.ledger)
            && (forall m | m in s.acked || (exists r | r in s.importers :: s.importers[r].phase == Recorded(m)) ::
                  exists i | 0 <= i < |s.ledger| :: s.ledger[i].key == m.key && s.ledger[i].deaths >= m.deaths)
            && (forall row | row in s.ledger :: ComesFrom(row, s.published))
  {
    var s := Run(INITIAL, log).value;
    RunKeepsInv(INITIAL, log);
    forall m | m in s.recorded
      ensures exists i | 0 <= i < |s.ledger| :: s.ledger[i].key == m.key && s.ledger[i].deaths >= m.deaths
    {
      MaxDeathsIsMax(s.recorded, m.key);
      var i := Find(s.ledger, m.key).value;
      assert RowTells(s.ledger[i], s.recorded);
    }
    forall row | row in s.ledger ensures ComesFrom(row, s.published) {
      var i :| 0 <= i < |s.ledger| && s.ledger[i] == row;
      assert RowTells(s.ledger[i], s.recorded);
      MaxDeathsIsMax(s.recorded, s.ledger[i].key);
      var m :| m in s.recorded && m.key == s.ledger[i].key && m.deaths == s.ledger[i].deaths;
      assert m in s.published;
    }
  }

  function Acks(log: seq<Event>, r: nat): nat {
    if log == [] then 0 else (if log[0] == Acknowledge(r) then 1 else 0) + Acks(log[1..], r)
  }

  lemma {:induction false} AcksAreCounted(s: State, log: seq<Event>, r: nat)
    requires Run(s, log).Some?
    ensures var t := Run(s, log).value;
            && (r !in t.importers ==> r !in s.importers && Acks(log, r) == 0)
            && (r in t.importers ==>
                  t.importers[r].imported == (if r in s.importers then s.importers[r].imported else 0) + Acks(log, r))
    decreases |log|
  {
    if log != [] { AcksAreCounted(Apply(s, log[0]), log[1..], r); }
  }

  /** One run of the importer acknowledges at most its limit, and `imported` counts its acknowledgements. */
  lemma AcksWithinLimit(log: seq<Event>, r: nat)
    requires Run(INITIAL, log).Some? && r in Run(INITIAL, log).value.importers
    ensures var importer := Run(INITIAL, log).value.importers[r];
            importer.imported == Acks(log, r) <= importer.limit
  {
    RunKeepsInv(INITIAL, log);
    AcksAreCounted(INITIAL, log, r);
  }
}

module DeadLetterRun {
  import opened Options
  import opened DeadLetterImport

  /** How one turn of the loop ends; after `CommitLost` the upsert is durable but the call raised. */
  datatype Turn = Imported | RecordRaises | CommitLost | CrashHolding | CrashRecorded

  /**
   * What the outside decides for one turn: how it ends, the ids and queue positions it meets, and
   * who runs in between.
   */
  datatype Script = Script(turn: Turn, rowId: nat, position: nat, between: seq<Event>)

  datatype Outcome = Complete(imported: nat) | BadLimit | Failed(imported: nat)

  /** How one turn of the loop ends for the loop. */
  datatype TurnEnd = OneMore | NothingLeft | GaveUp

  predicate Touches(e: Event, r: nat) {
    match e
    case Publish(_) => false
    case Operate(_, _, _, _) => false
    case Start(q, _) => q == r
    case Get(q) => q == r
    case Record(q, _) => q == r
    case Acknowledge(q) => q == r
    case Requeue(q, _) => q == r
    case Finish(q) => q == r
  }

  class Broker {
    var state: State
    ghost var log: seq<Event>

    ghost predicate Valid() reads this { Run(INITIAL, log) == Some(state) }

    constructor ()
      ensures Valid() && log == []
    {
      state, log := INITIAL, [];
    }

    method Step(e: Event)
      requires Valid() && Enabled(state, e)
      modifies this
      ensures Valid() && log == old(log) + [e] && state == Apply(old(state), e)
    {
      assert Run(Apply(state, e), []) == Some(Apply(state, e));
      RunConcat(INITIAL, log, [e]);
      log := log + [e];
      state := Apply(state, e);
    }

    /** Producers, operators and other importers, as far as their steps are possible now. */
    method Interfere(r: nat, schedule: seq<Event>)
      requires Valid()
      modifies this
      ensures Valid() && old(log) <= log
      ensures r in old(state).importers <==> r in state.importers
      ensures r in state.importers ==> state.importers[r] == old(state).importers[r]
      ensures old(state).recorded <= state.recorded
    {
      for i := 0 to |schedule|
        invariant Valid() && old(log) <= log
        invariant r in old(state).importers <==> r in state.importers
        invariant r in state.importers ==> state.importers[r] == old(state).importers[r]
        invariant old(state).recorded <= state.recorded
      {
        if !Touches(schedule[i], r) && Enabled(state, schedule[i]) { Step(schedule[i]); }
      }
    }

    /** The body of the loop: get, record, acknowledge; `taken` is the message it got. */
    method ImportOne(r: nat, plan: Script) returns (end: TurnEnd, ghost taken: Option<Message>)
      requires Valid() && r in state.importers && state.importers[r].phase.Idle?
      requires state.importers[r].imported < state.importers[r].limit
      modifies this
      ensures Valid() && old(log) <= log && r in state.importers
      ensures end == NothingLeft ==> state.queue == [] && state.importers[r] == old(state).importers[r]
      ensures end == OneMore ==>
                state.importers[r] == old(state).importers[r].(imported := old(state).importers[r].imported + 1)
      ensures end == GaveUp ==>
                state.importers[r].phase.Ended? && state.importers[r].imported == old(state).importers[r].imported
      ensures end == NothingLeft <==> taken == None
      ensures end == OneMore ==>
                plan.turn.Imported? && state.acked != [] && state.acked[|state.acked| - 1] == taken.value
      ensures end == GaveUp ==> !plan.turn.Imported? && taken.value in state.queue
      ensures end == OneMore || (end == GaveUp && (plan.turn.CrashRecorded? || plan.turn.CommitLost?)) ==>
                taken.value in state.recorded
    {
      taken := None;
      Interfere(r, plan.between);
      if state.queue == [] { return NothingLeft, None; }
      taken := Some(state.queue[0]);
      Step(Get(r));
      Interfere(r, plan.between);
      if plan.turn.CrashHolding? || plan.turn.RecordRaises? {
        GiveBack(r, plan.position);
        return GaveUp, taken;
      }
      Step(Record(r, plan.rowId));
      ghost var last := |state.recorded| - 1;
      assert state.recorded[last] == taken.value;
      Interfere(r, plan.between);
      assert state.recorded[last] == taken.value;
      if plan.turn.CrashRecorded? || plan.turn.CommitLost? {
        GiveBack(r, plan.position);
        return GaveUp, taken;
      }
      Step(Acknowledge(r));
      return OneMore, taken;
    }

    /**
     * One run of the command. It acknowledges exactly the messages it counts, never more than
     * the limit, and completes at the limit or on an empty queue; it fails only when a turn
     * does, after giving its message back.
     */
    method ImportDeadLetters(r: nat, limit: int, script: nat -> Script) returns (outcome: Outcome)
      requires Valid() && r !in state.importers
      modifies this
      ensures Valid() && old(log) <= log
      ensures outcome.BadLimit? <==> limit < 1
      ensures limit < 1 ==> state == old(state)
      ensures limit >= 1 ==> r in state.importers && state.importers[r].phase.Ended?
      ensures !outcome.BadLimit? ==> outcome.imported == Acks(log, r) <= limit
      ensures outcome.Complete? && outcome.imported < limit ==> state.queue == []
      ensures outcome.Failed? ==> outcome.imported < limit && !script(outcome.imported).turn.Imported?
    {
      if limit < 1 { return BadLimit; }
      Step(Start(r, limit));
      var imported := 0;
      while imported < limit
        invariant Valid() && old(log) <= log && r in state.importers
        invariant state.importers[r] == Importer(limit, imported, Idle) && imported <= limit
        decreases limit - imported
      {
        ghost var taken: Option<Message>;
        var end;
        end, taken := ImportOne(r, script(imported));
        if end == GaveUp {
          AcksAreCounted(INITIAL, log, r);
          return Failed(imported);
        }
        if end == NothingLeft { break; }
        imported := imported + 1;
      }
      Step(Finish(r));
      AcksAreCounted(INITIAL, log, r);
      return Complete(imported);
    }

    /** A negative acknowledgement, or the broker taking back what a dead connection held. */
    method GiveBack(r: nat, position: nat)
      requires Valid() && Held(state, r).Some?
      modifies this
      ensures Valid() && old(log) <= log
      ensures r in state.importers && state.importers[r] == old(state).importers[r].(phase := Ended)
      ensures Held(old(state), r).value in state.queue && state.recorded == old(state).recorded
    {
      var place := if position <= |state.queue| then position else |state.queue|;
      ghost var m := Held(state, r).value;
      Step(Requeue(r, place));
      assert state.queue[place] == m;
    }
  }
}
