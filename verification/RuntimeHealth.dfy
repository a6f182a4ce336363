/**
 * The runtime heartbeat: the reporter that tracks readiness and bounded operations and
 * writes them to a file, and the checker that decides from the file whether the process is
 * healthy. The clock is a parameter of each call; numbers in the file are integers or reals.
 */
module HealthFile {
  import opened Options

  datatype Json = Null | Bool(flag: bool) | Int(number: int) | Float(value: real) | Text(text: string)
                | List(items: seq<Json>) | Object(fields: map<string, Json>)

  /** What is found at the path: nothing readable, bytes that are not UTF-8, text that is not JSON, or a document. */
  datatype File = Unreadable | Undecodable | NotJson | Document(json: Json)

  /** BadThreshold and BadEncoding are ValueErrors, which the command reports like the health errors. */
  datatype Fault =
    | BadThreshold
    | BadEncoding
    | FileUnavailable
    | InvalidJson
    | NotAnObject
    | UnsupportedSchema
    | NotReady
    | InvalidNumber(key: string, operation: Option<nat>)
    | FromTheFuture
    | StaleHeartbeat
    | InvalidPid
    | ProcessDead
    | InvalidOperations
    | OperationNotObject(index: nat)
    | InvalidName(index: nat)
    | Overdue(name: string)

  datatype Verdict = Healthy(payload: map<string, Json>) | Unhealthy(fault: Fault)

  const SCHEMA_VERSION := 1
  const MAX_CLOCK_SKEW := 5.0

  function Get(m: map<string, Json>, key: string): Json {
    if key in m then m[key] else Null
  }

  /** Python's `== 1`: also true of 1.0 and of True. */
  predicate EqualsVersion(j: Json) {
    j == Int(SCHEMA_VERSION) || j == Float(SCHEMA_VERSION as real) || j == Bool(true)
  }

  /** An int or float that is not a bool. */
  function NumberOf(j: Json): Option<real> {
    match j
    case Int(i) => Some(i as real)
    case Float(x) => Some(x)
    case _ => None
  }

  /** The characters str.strip removes. */
  predicate IsSpace(c: char) {
    var n := c as int;
    || 9 <= n <= 13 || 28 <= n <= 32 || 0x2000 <= n <= 0x200A
    || n in {0x85, 0xA0, 0x1680, 0x2028, 0x2029, 0x202F, 0x205F, 0x3000}
  }

  predicate Blank(s: string) { forall c | c in s :: IsSpace(c) }

  // ---- What the checker decides ----

  predicate OperationOk(j: Json, draining: bool, now: real) {
    && j.Object?
    && Get(j.fields, "name").Text? && !Blank(Get(j.fields, "name").text)
    && NumberOf(Get(j.fields, "deadline_at")).Some?
    && (draining || now <= NumberOf(Get(j.fields, "deadline_at")).value)
  }

  predicate Accepts(file: File, stale: real, now: real, alive: int -> bool) {
    && stale > 0.0
    && file.Document? && file.json.Object?
    && var p := file.json.fields;
    && var draining := Get(p, "lifecycle_state") == Text("draining");
    && EqualsVersion(Get(p, "schema_version"))
    && (Get(p, "ready") == Bool(true) || draining)
    && NumberOf(Get(p, "heartbeat_at")).Some?
    && now - stale <= NumberOf(Get(p, "heartbeat_at")).value <= now + MAX_CLOCK_SKEW
    && Get(p, "pid").Int? && Get(p, "pid").number > 0 && alive(Get(p, "pid").number)
    && Get(p, "operations").List?
    && forall j | j in Get(p, "operations").items :: OperationOk(j, draining, now)
  }

  /** The fault of one operation, if it has one. */
  function OperationFault(j: Json, i: nat, draining: bool, now: real): (f: Option<Fault>)
    ensures f.None? <==> OperationOk(j, draining, now)
  {
    if !j.Object? then Some(OperationNotObject(i))
    else if !Get(j.fields, "name").Text? || Blank(Get(j.fields, "name").text) then Some(InvalidName(i))
    else
      match NumberOf(Get(j.fields, "deadline_at"))
      case None => Some(InvalidNumber("deadline_at", Some(i)))
      case Some(deadline) => if !draining && now > deadline then Some(Overdue(Get(j.fields, "name").text)) else None
  }

  /** Everything checked before the operations, in order. */
  function HeaderFault(p: map<string, Json>, stale: real, now: real, alive: int -> bool): Option<Fault> {
    if !EqualsVersion(Get(p, "schema_version")) then Some(UnsupportedSchema)
    else if Get(p, "ready") != Bool(true) && Get(p, "lifecycle_state") != Text("draining") then Some(NotReady)
    else
      match NumberOf(Get(p, "heartbeat_at"))
      case None => Some(InvalidNumber("heartbeat_at", None))
      case Some(beat) =>
        if beat > now + MAX_CLOCK_SKEW then Some(FromTheFuture)
        else if now - beat > stale then Some(StaleHeartbeat)
        else if !Get(p, "pid").Int? || Get(p, "pid").number <= 0 then Some(InvalidPid)
        else if !alive(Get(p, "pid").number) then Some(ProcessDead)
        else if !Get(p, "operations").List? then Some(InvalidOperations)
        else None
  }

  /** Which values pass for schema version one, which count as numbers, and which names are invisible. */
  lemma ValuesTold(j: Json, s: string)
    ensures EqualsVersion(j) <==> (j.Int? && j.number == 1) || (j.Float? && j.value == 1.0) || (j.Bool? && j.flag)
    ensures NumberOf(j).Some? <==> j.Int? || j.Float?
    ensures j.Int? ==> NumberOf(j) == Some(j.number as real)
    ensures j.Float? ==> NumberOf(j) == Some(j.value)
    ensures Blank(s) <==> forall i | 0 <= i < |s| :: Invisible(s[i] as int)
  {
    if Blank(s) { forall i | 0 <= i < |s| ensures Invisible(s[i] as int) { assert s[i] in s; } }
  }

  /** The code points of Python's white space: controls, space, the no-break spaces and the typographic ones. */
  predicate Invisible(n: int) {
    || n == 9 || n == 10 || n == 11 || n == 12 || n == 13 || n == 28 || n == 29 || n == 30 || n == 31 || n == 32
    || n == 133 || n == 160 || n == 5760 || 8192 <= n <= 8202 || n == 8232 || n == 8233 || n == 8239 || n == 8287
    || n == 12288
  }

  /** Which fault an operation has, each told by its own condition after the earlier ones. */
  lemma OperationFaultTold(j: Json, i: nat, draining: bool, now: real)
    ensures var f, name := OperationFault(j, i, draining, now), if j.Object? then Get(j.fields, "name") else Null;
            var deadline := if j.Object? then Get(j.fields, "deadline_at") else Null;
            var named := j.Object? && name.Text? && exists k :: 0 <= k < |name.text| && !Invisible(name.text[k] as int);
            var dated := deadline.Int? || deadline.Float?;
            && (f == Some(OperationNotObject(i)) <==> !j.Object?)
            && (f == Some(InvalidName(i)) <==> j.Object? && !named)
            && (f == Some(InvalidNumber("deadline_at", Some(i))) <==> named && !dated)
            && (f.Some? && f.value.Overdue? <==>
                  named && !draining && dated
                  && now > if deadline.Int? then deadline.number as real else deadline.value)
            && (f.Some? && f.value.Overdue? ==> f.value.name == name.text)
            && (f.Some? ==>
                  f.value.OperationNotObject? || f.value.InvalidName? || f.value.InvalidNumber? || f.value.Overdue?)
  {
    if j.Object? {
      ValuesTold(Get(j.fields, "deadline_at"), "");
      if Get(j.fields, "name").Text? { ValuesTold(Null, Get(j.fields, "name").text); }
    }
  }

  // The checks before the operations, one after the other.

  ghost predicate HasVersion(p: map<string, Json>) {
    || Get(p, "schema_version") == Int(1)
    || Get(p, "schema_version") == Float(1.0)
    || Get(p, "schema_version") == Bool(true)
  }

  ghost predicate IsUp(p: map<string, Json>) {
    HasVersion(p) && (Get(p, "ready") == Bool(true) || Get(p, "lifecycle_state") == Text("draining"))
  }

  ghost predicate HasBeat(p: map<string, Json>) {
    IsUp(p) && (Get(p, "heartbeat_at").Int? || Get(p, "heartbeat_at").Float?)
  }

  ghost function BeatOf(p: map<string, Json>): real {
    match Get(p, "heartbeat_at")
    case Int(n) => n as real
    case Float(x) => x
    case _ => 0.0
  }

  ghost predicate IsTimely(p: map<string, Json>, stale: real, now: real) {
    HasBeat(p) && BeatOf(p) <= now + 5.0 && now - BeatOf(p) <= stale
  }

  ghost predicate HasPid(p: map<string, Json>, stale: real, now: real) {
    IsTimely(p, stale, now) && Get(p, "pid").Int? && Get(p, "pid").number > 0
  }

  ghost predicate IsRunning(p: map<string, Json>, stale: real, now: real, alive: int -> bool) {
    HasPid(p, stale, now) && alive(Get(p, "pid").number)
  }

  /** Which fault a header has, each told by its own condition after the earlier ones. */
  lemma HeaderFaultTold(p: map<string, Json>, stale: real, now: real, alive: int -> bool)
    ensures var f := HeaderFault(p, stale, now, alive);
            && (f == Some(UnsupportedSchema) <==> !HasVersion(p))
            && (f == Some(NotReady) <==> HasVersion(p) && !IsUp(p))
            && (f == Some(InvalidNumber("heartbeat_at", None)) <==> IsUp(p) && !HasBeat(p))
            && (f == Some(FromTheFuture) <==> HasBeat(p) && BeatOf(p) > now + 5.0)
            && (f == Some(StaleHeartbeat) <==> HasBeat(p) && BeatOf(p) <= now + 5.0 && now - BeatOf(p) > stale)
            && (f == Some(InvalidPid) <==> IsTimely(p, stale, now) && !HasPid(p, stale, now))
            && (f == Some(ProcessDead) <==> HasPid(p, stale, now) && !IsRunning(p, stale, now, alive))
            && (f == Some(InvalidOperations) <==> IsRunning(p, stale, now, alive) && !Get(p, "operations").List?)
            && (f == None <==> IsRunning(p, stale, now, alive) && Get(p, "operations").List?)
  {
    hide Get, EqualsVersion, NumberOf;
    ValuesTold(Get(p, "schema_version"), "");
    ValuesTold(Get(p, "heartbeat_at"), "");
  }

  /**
   * The checker accepts exactly the files that Accepts describes, returns their payload, and
   * names the header's fault first, then that of the first bad operation.
   */
  method CheckRuntimeHealth(file: File, stale: real, now: real, alive: int -> bool) returns (v: Verdict)
    ensures v.Healthy? <==> Accepts(file, stale, now, alive)
    ensures v.Healthy? ==> file == Document(Object(v.payload))
    ensures v == Unhealthy(BadThreshold) <==> stale <= 0.0
    ensures stale > 0.0 && !(file.Document? && file.json.Object?) ==>
              v == Unhealthy(match file
                             case Unreadable => FileUnavailable
                             case Undecodable => BadEncoding
                             case NotJson => InvalidJson
                             case Document(_) => NotAnObject)
    ensures stale > 0.0 && file.Document? && file.json.Object?
            && HeaderFault(file.json.fields, stale, now, alive).Some? ==>
              v == Unhealthy(HeaderFault(file.json.fields, stale, now, alive).value)
    ensures stale > 0.0 && file.Document? && file.json.Object?
            && HeaderFault(file.json.fields, stale, now, alive).None? ==>
              var p := file.json.fields;
              var draining := Get(p, "lifecycle_state") == Text("draining");
              var items := Get(p, "operations").items;
              v.Healthy? || exists i | 0 <= i < |items| ::
                && OperationFault(items[i], i, draining, now) == Some(v.fault)
                && forall k | 0 <= k < i :: OperationFault(items[k], k, draining, now).None?
  {
    if stale <= 0.0 { return Unhealthy(BadThreshold); }
    if file.Unreadable? { return Unhealthy(FileUnavailable); }
    if file.Undecodable? { return Unhealthy(BadEncoding); }
    if file.NotJson? { return Unhealthy(InvalidJson); }
    if !file.json.Object? { return Unhealthy(NotAnObject); }
    var p := file.json.fields;
    var draining := Get(p, "lifecycle_state") == Text("draining");
    var fault := HeaderFault(p, stale, now, alive);
    if fault.Some? { return Unhealthy(fault.value); }
    var items := Get(p, "operations").items;
    var i := 0;
    while i < |items|
      invariant 0 <= i <= |items|
      invariant forall k | 0 <= k < i :: OperationFault(items[k], k, draining, now).None?
    {
      fault := OperationFault(items[i], i, draining, now);
      if fault.Some? {
        assert items[i] in items && !OperationOk(items[i], draining, now);
        return Unhealthy(fault.value);
      }
      i := i + 1;
    }
    forall j | j in items ensures OperationOk(j, draining, now) {
      var k :| 0 <= k < |items| && items[k] == j;
      assert OperationFault(items[k], k, draining, now).None?;
    }
    return Healthy(p);
  }
}

module RuntimeHealth {
  import opened Options
  import opened HealthFile

  datatype Operation = Operation(name: string, startedAt: real, deadlineAt: real)

  datatype Entry = Entry(id: nat, op: Operation)

  datatype Config = Config(service: string, role: Option<string>, bootId: string, pid: int, operationTimeout: real)

  /** The mutable fields of the reporter; `operations` is a dictionary in insertion order. */
  datatype State = State(ready: bool, lifecycle: string, lastProgress: real, operations: seq<Entry>)

  datatype Event =
    | Started
    | Stopped
    | MarkedReady(at: real)
    | MarkedDraining(at: real)
    | MarkedProgress(at: real)
    | Entered(entry: Entry)
    | Exited(id: nat, at: real)
    | Beat

  // ---- Writing ----

  /** sorted(..., key=deadline_at): stable, so equal deadlines keep their order. */
  function Place(s: seq<Operation>, x: Operation): (r: seq<Operation>)
    ensures forall y :: y in r <==> y in s || y == x
  {
    if s == [] then [x]
    else if s[|s| - 1].deadlineAt <= x.deadlineAt then s + [x]
    else Place(s[..|s| - 1], x) + [s[|s| - 1]]
  }

  function ByDeadline(entries: seq<Entry>): seq<Operation> {
    if entries == [] then [] else Place(ByDeadline(entries[..|entries| - 1]), entries[|entries| - 1].op)
  }

  ghost predicate DeadlinesAscend(s: seq<Operation>) {
    forall i, j | 0 <= i <= j < |s| :: s[i].deadlineAt <= s[j].deadlineAt
  }

  function WithDeadline(s: seq<Operation>, d: real): seq<Operation> {
    if s == [] then [] else
      WithDeadline(s[..|s| - 1], d) + if s[|s| - 1].deadlineAt == d then [s[|s| - 1]] else []
  }

  function Ops(entries: seq<Entry>): (r: seq<Operation>)
    ensures |r| == |entries| && forall i | 0 <= i < |r| :: r[i] == entries[i].op
  {
    seq(|entries|, i requires 0 <= i < |entries| => entries[i].op)
  }

  lemma {:induction false} PlaceAscends(s: seq<Operation>, x: Operation)
    requires DeadlinesAscend(s)
    ensures DeadlinesAscend(Place(s, x))
  {
    if s != [] && s[|s| - 1].deadlineAt > x.deadlineAt {
      var init, last := s[..|s| - 1], s[|s| - 1];
      var placed := Place(init, x);
      PlaceAscends(init, x);
      forall i | 0 <= i < |placed| ensures placed[i].deadlineAt <= last.deadlineAt { assert placed[i] in placed; }
    }
  }

  lemma WithLast(s: seq<Operation>, x: Operation, d: real)
    ensures WithDeadline(s + [x], d) == WithDeadline(s, d) + if x.deadlineAt == d then [x] else []
  {
    assert (s + [x])[..|s|] == s;
  }

  lemma {:induction false} PlaceStable(s: seq<Operation>, x: Operation, d: real)
    ensures WithDeadline(Place(s, x), d) == WithDeadline(s, d) + if x.deadlineAt == d then [x] else []
  {
    if s == [] {
      WithLast([], x, d);
    } else if s[|s| - 1].deadlineAt <= x.deadlineAt {
      WithLast(s, x, d);
    } else {
      var init, last := s[..|s| - 1], s[|s| - 1];
      PlaceStable(init, x, d);
      WithLast(Place(init, x), last, d);
    }
  }

  /** The written list is in deadline order, and operations of equal deadline keep the order they were entered in. */
  lemma {:induction false} WrittenStably(entries: seq<Entry>, d: real)
    ensures DeadlinesAscend(ByDeadline(entries))
    ensures WithDeadline(ByDeadline(entries), d) == WithDeadline(Ops(entries), d)
  {
    if entries != [] {
      var init := entries[..|entries| - 1];
      WrittenStably(init, d);
      PlaceAscends(ByDeadline(init), entries[|entries| - 1].op);
      PlaceStable(ByDeadline(init), entries[|entries| - 1].op, d);
      assert Ops(entries)[..|entries| - 1] == Ops(init);
    }
  }

  lemma {:induction false} WrittenAll(entries: seq<Entry>)
    ensures forall op :: op in ByDeadline(entries) <==> exists e :: e in entries && e.op == op
  {
    if entries != [] {
      var init, last := entries[..|entries| - 1], entries[|entries| - 1];
      WrittenAll(init);
      assert entries == init + [last];
      forall op ensures op in ByDeadline(entries) <==> exists e :: e in entries && e.op == op {
        if op == last.op { assert last in entries; }
        if e :| e in init && e.op == op { assert e in entries; }
        if e :| e in entries && e.op == op { assert e in init || e == last; }
      }
    }
  }

  function OperationJson(op: Operation): Json {
    Object(map["name" := Text(op.name), "started_at" := Float(op.startedAt), "deadline_at" := Float(op.deadlineAt)])
  }

  lemma OperationFields(op: Operation)
    ensures OperationJson(op).fields.Keys == {"name", "started_at", "deadline_at"}
    ensures Get(OperationJson(op).fields, "name") == Text(op.name)
    ensures Get(OperationJson(op).fields, "started_at") == Float(op.startedAt)
    ensures Get(OperationJson(op).fields, "deadline_at") == Float(op.deadlineAt)
  {
  }

  function OperationsJson(ops: seq<Operation>): (r: seq<Json>)
    ensures |r| == |ops| && forall i | 0 <= i < |r| :: r[i] == OperationJson(ops[i])
  {
    seq(|ops|, i requires 0 <= i < |ops| => OperationJson(ops[i]))
  }

  /** The document `_write` replaces the file with. */
  function Payload(c: Config, s: State, now: real): Json {
    Object(map[
      "schema_version" := Int(SCHEMA_VERSION),
      "service" := Text(c.service),
      "role" := if c.role.Some? then Text(c.role.value) else Null,
      "boot_id" := Text(c.bootId),
      "pid" := Int(c.pid),
      "ready" := Bool(s.ready),
      "lifecycle_state" := Text(s.lifecycle),
      "heartbeat_at" := Float(now),
      "last_progress_at" := Float(s.lastProgress),
      "operations" := List(OperationsJson(ByDeadline(s.operations)))])
  }

  // ---- What happened so far ----

  function Without(entries: seq<Entry>, id: nat): (r: seq<Entry>)
    ensures forall e :: e in r <==> e in entries && e.id != id
  {
    if entries == [] then []
    else if entries[|entries| - 1].id == id then Without(entries[..|entries| - 1], id)
    else Without(entries[..|entries| - 1], id) + [entries[|entries| - 1]]
  }

  function Apply(s: State, e: Event): State {
    match e
    case Started => s
    case Stopped => s.(ready := false, lifecycle := "stopped", operations := [])
    case MarkedReady(at) => s.(ready := true, lifecycle := "running", lastProgress := at)
    case MarkedDraining(at) => s.(lifecycle := "draining", lastProgress := at)
    case MarkedProgress(at) => s.(lastProgress := at)
    case Entered(entry) => s.(operations := s.operations + [entry])
    case Exited(id, at) => s.(operations := Without(s.operations, id), lastProgress := at)
    case Beat => s
  }

  function After(born: real, log: seq<Event>): State {
    if log == [] then State(false, "starting", born, []) else Apply(After(born, log[..|log| - 1]), log[|log| - 1])
  }

  /** Every entered operation has an id of its own. */
  ghost predicate FreshIds(log: seq<Event>) {
    forall i, j | 0 <= i < j < |log| && log[i].Entered? && log[j].Entered? :: log[i].entry.id != log[j].entry.id
  }

  lemma FreshStays(log: seq<Event>, entry: Entry)
    requires FreshIds(log) && forall i | 0 <= i < |log| && log[i].Entered? :: log[i].entry.id < entry.id
    ensures FreshIds(log + [Entered(entry)])
  {
  }

  /** Entered at i and not exited since. */
  ghost predicate Pending(log: seq<Event>, i: int) {
    && 0 <= i < |log| && log[i].Entered?
    && forall j | i < j < |log| && log[j].Exited? :: log[j].id != log[i].entry.id
  }

  /** Entered at i, not exited and not wiped by a stop since. */
  ghost predicate Live(log: seq<Event>, i: int) {
    Pending(log, i) && forall j | i < j < |log| :: log[j] != Stopped
  }

  lemma OneMoreEvent(p: seq<Event>, last: Event, i: int)
    requires 0 <= i < |p|
    ensures Pending(p + [last], i) <==> Pending(p, i) && !(last.Exited? && last.id == p[i].entry.id)
    ensures Live(p + [last], i) <==> Live(p, i) && last != Stopped && !(last.Exited? && last.id == p[i].entry.id)
  {
    var log := p + [last];
    assert log[|p|] == last && forall j | 0 <= j < |p| :: log[j] == p[j];
    if Pending(p, i) && !(last.Exited? && last.id == p[i].entry.id) { assert Pending(log, i); }
  }

  lemma AfterStep(born: real, log: seq<Event>, e: Event)
    ensures After(born, log + [e]) == Apply(After(born, log), e)
  {
    assert (log + [e])[..|log|] == log;
  }

  /** The tracked operations are exactly those entered and not exited since the last stop. */
  lemma {:induction false} TrackedAreLive(born: real, log: seq<Event>, e: Entry)
    requires FreshIds(log)
    ensures e in After(born, log).operations <==> exists i :: Live(log, i) && log[i].entry == e
  {
    if log != [] {
      var n := |log| - 1;
      var p, last := log[..n], log[n];
      assert log == p + [last];
      TrackedAreLive(born, p, e);
      forall i | 0 <= i < n
        ensures Live(log, i) <==> Live(p, i) && last != Stopped && !(last.Exited? && last.id == p[i].entry.id)
      {
        OneMoreEvent(p, last, i);
      }
      if i :| Live(p, i) && p[i].entry == e {
        if last != Stopped && !(last.Exited? && last.id == e.id) { assert Live(log, i); }
      }
      if i :| Live(log, i) && log[i].entry == e {
        if i < n { assert Live(p, i); }
      }
      if last == Entered(e) { assert Live(log, n); }
    }
  }

  ghost predicate TracksAll(born: real, log: seq<Event>) {
    forall e :: e in After(born, log).operations <==> exists i :: Pending(log, i) && log[i].entry == e
  }

  /** Every stop came when no operation was tracked. */
  ghost predicate StoppedIdle(born: real, log: seq<Event>) {
    forall i | 0 <= i < |log| && log[i] == Stopped :: After(born, log[..i]).operations == []
  }

  lemma {:induction false} IdleStopsTrackAll(born: real, log: seq<Event>)
    requires FreshIds(log) && StoppedIdle(born, log)
    ensures TracksAll(born, log)
  {
    if log != [] {
      var n := |log| - 1;
      var p, last := log[..n], log[n];
      forall i | 0 <= i < n && p[i] == Stopped ensures After(born, p[..i]).operations == [] {
        assert log[i] == Stopped && p[..i] == log[..i];
      }
      IdleStopsTrackAll(born, p);
      assert log == p + [last];
      assert last == Stopped ==> After(born, p).operations == [];
      forall i | 0 <= i < n ensures Pending(log, i) <==> Pending(p, i) && !(last.Exited? && last.id == p[i].entry.id) {
        OneMoreEvent(p, last, i);
      }
      forall e ensures e in After(born, log).operations <==> exists i :: Pending(log, i) && log[i].entry == e {
        if i :| Pending(p, i) && p[i].entry == e {
          assert e in After(born, p).operations;
          if !(last.Exited? && last.id == e.id) { assert Pending(log, i); }
        }
        if i :| Pending(log, i) && log[i].entry == e {
          if i < n { assert Pending(p, i); }
        }
        if last == Entered(e) { assert Pending(log, n); }
      }
    }
  }

  /** In every state along a run the table is entered-and-not-exited, exactly when no stop interrupts an operation. */
  lemma TrackedExactly(born: real, log: seq<Event>)
    requires FreshIds(log)
    ensures (forall n | 0 <= n <= |log| :: TracksAll(born, log[..n])) <==> StoppedIdle(born, log)
  {
    if StoppedIdle(born, log) {
      forall n | 0 <= n <= |log| ensures TracksAll(born, log[..n]) {
        forall i | 0 <= i < n && log[..n][i] == Stopped ensures After(born, log[..n][..i]).operations == [] {
          assert log[i] == Stopped && log[..n][..i] == log[..i];
        }
        IdleStopsTrackAll(born, log[..n]);
      }
    }
    if forall n | 0 <= n <= |log| :: TracksAll(born, log[..n]) {
      forall i | 0 <= i < |log| && log[i] == Stopped ensures After(born, log[..i]).operations == [] {
        BusyStopForgets(born, log, i);
      }
    }
  }

  lemma PendingSurvivesStop(born: real, p: seq<Event>, e: Entry)
    requires TracksAll(born, p) && TracksAll(born, p + [Stopped]) && e in After(born, p).operations
    ensures e in After(born, p + [Stopped]).operations
  {
    var k :| Pending(p, k) && p[k].entry == e;
    OneMoreEvent(p, Stopped, k);
    assert Pending(p + [Stopped], k);
  }

  lemma BusyStopForgets(born: real, log: seq<Event>, i: nat)
    requires i < |log| && log[i] == Stopped
    requires TracksAll(born, log[..i]) && TracksAll(born, log[..i + 1])
    ensures After(born, log[..i]).operations == []
  {
    var p, q := log[..i], log[..i + 1];
    assert q == p + [Stopped];
    AfterStep(born, p, Stopped);
    if After(born, p).operations != [] {
      PendingSurvivesStop(born, p, After(born, p).operations[0]);
    }
  }

  /** A stop during an operation drops it from the table although it has not exited. */
  lemma StopDropsOperation(born: real, e: Entry)
    ensures var log := [Entered(e), Stopped]; Pending(log, 0) && After(born, log).operations == []
  {
    var log := [Entered(e), Stopped];
    assert log[..1] == [Entered(e)];
  }

  // ---- The verdict on a written file ----

  lemma PayloadFields(c: Config, s: State, now: real)
    ensures var p := Payload(c, s, now).fields;
            && Get(p, "schema_version") == Int(SCHEMA_VERSION) && Get(p, "pid") == Int(c.pid)
            && Get(p, "ready") == Bool(s.ready) && Get(p, "lifecycle_state") == Text(s.lifecycle)
            && Get(p, "heartbeat_at") == Float(now) && Get(p, "last_progress_at") == Float(s.lastProgress)
            && Get(p, "service") == Text(c.service) && Get(p, "boot_id") == Text(c.bootId)
            && Get(p, "role") == (if c.role.Some? then Text(c.role.value) else Null)
            && Get(p, "operations") == List(OperationsJson(ByDeadline(s.operations)))
  {
  }

  /** What the checker must find out about the reporter that wrote the file. */
  predicate ShouldAccept(c: Config, s: State, beat: real, stale: real, now: real, alive: int -> bool) {
    && (s.ready || s.lifecycle == "draining")
    && beat <= now + MAX_CLOCK_SKEW && now - beat <= stale
    && alive(c.pid)
    && (s.lifecycle == "draining" || forall e | e in s.operations :: now <= e.op.deadlineAt)
  }

  predicate NamesVisible(s: State) { forall e | e in s.operations :: !Blank(e.op.name) }

  /** The checker passes the written operations exactly if none is overdue, or the process is draining. */
  lemma OperationsTellDeadlines(entries: seq<Entry>, draining: bool, now: real)
    requires forall e | e in entries :: !Blank(e.op.name)
    ensures (forall j | j in OperationsJson(ByDeadline(entries)) :: OperationOk(j, draining, now)) <==>
            draining || forall e | e in entries :: now <= e.op.deadlineAt
  {
    hide OperationOk, ByDeadline, Blank;
    var ops := ByDeadline(entries);
    var items := OperationsJson(ops);
    WrittenAll(entries);
    forall op | op in ops ensures OperationOk(OperationJson(op), draining, now) <==> draining || now <= op.deadlineAt {
      OperationTellsDeadline(op, draining, now);
    }
    if draining || forall e | e in entries :: now <= e.op.deadlineAt {
      forall j | j in items ensures OperationOk(j, draining, now) {
        var i :| 0 <= i < |items| && items[i] == j;
        assert ops[i] in ops;
      }
    } else {
      var e :| e in entries && now > e.op.deadlineAt;
      assert e.op in ops;
      var i :| 0 <= i < |ops| && ops[i] == e.op;
      assert items[i] in items && !OperationOk(items[i], draining, now);
    }
  }

  lemma OperationTellsDeadline(op: Operation, draining: bool, now: real)
    requires !Blank(op.name)
    ensures OperationOk(OperationJson(op), draining, now) <==> draining || now <= op.deadlineAt
  {
  }

  /** For every state, the checker's verdict on the file it writes is exactly the state's health. */
  lemma WrittenFileTellsHealth(c: Config, s: State, beat: real, stale: real, now: real, alive: int -> bool)
    requires c.pid > 0 && stale > 0.0 && NamesVisible(s)
    ensures Accepts(Document(Payload(c, s, beat)), stale, now, alive) <==> ShouldAccept(c, s, beat, stale, now, alive)
  {
    hide OperationOk, ByDeadline, OperationsJson, Blank;
    PayloadFields(c, s, beat);
    OperationsTellDeadlines(s.operations, s.lifecycle == "draining", now);
    assert Text(s.lifecycle) == Text("draining") <==> s.lifecycle == "draining";
  }

  // ---- The reporter ----

  /** How entering an operation ends: a bad timeout, a write error after the entry was made, or its id. */
  datatype Entering = Refused | WriteFailed | Running(id: nat)

  /**
   * Each call that writes takes `ok`: whether the file could be replaced. A failed write raises
   * out of the call after its state change; inside the heartbeat task it ends the task.
   */
  class RuntimeHealthReporter {
    const config: Config
    var ready: bool
    var lifecycle: string
    var lastProgress: real
    var operations: seq<Entry>
    var beating: bool
    var taskAlive: bool
    var file: File
    var issued: nat
    ghost const born: real
    ghost var log: seq<Event>
    ghost var written: Option<(State, real)>
    /** The last state change but for progress was written. */
    ghost var current: bool

    ghost function Now(): State
      reads this
    {
      State(ready, lifecycle, lastProgress, operations)
    }

    ghost predicate Valid()
      reads this
    {
      && Now() == After(born, log)
      && FreshIds(log) && (forall i | 0 <= i < |log| && log[i].Entered? :: log[i].entry.id < issued)
      && (written.Some? ==> file == Document(Payload(config, written.value.0, written.value.1)))
      && (current ==> written.Some? && written.value.0.(lastProgress := lastProgress) == Now())
      && (taskAlive ==> beating)
    }

    constructor (config: Config, now: real, found: File)
      ensures Valid() && log == [] && written == None && file == found && this.config == config && born == now
              && !beating
      ensures !ready && lifecycle == "starting" && lastProgress == now && operations == []
    {
      this.config := config;
      ready, lifecycle, lastProgress, operations := false, "starting", now, [];
      beating, taskAlive, file, issued := false, false, found, 0;
      born, log, written, current := now, [], None, false;
    }

    /** The file holds the present state if the write went through, else what it held before. */
    twostate predicate WroteIf(ok: bool, now: real)
      reads this
    {
      if ok then current && written == Some((Now(), now)) && file == Document(Payload(config, Now(), now))
      else written == old(written) && file == old(file)
    }

    method Write(now: real, ok: bool)
      modifies `file, `written, `current
      ensures WroteIf(ok, now) && current == ok
    {
      if ok {
        file := Document(Payload(config, State(ready, lifecycle, lastProgress, operations), now));
        written := Some((Now(), now));
      }
      current := ok;
    }

    /** Publishes the state and starts the heartbeat task, unless there is one already. */
    method Start(now: real, ok: bool)
      requires Valid()
      modifies `beating, `taskAlive, `file, `log, `written, `current
      ensures Valid() && (beating <==> old(beating) || ok)
      ensures old(beating) ==> log == old(log) && WroteIf(false, now) && taskAlive == old(taskAlive)
      ensures !old(beating) ==>
                log == (if ok then old(log) + [Started] else old(log)) && WroteIf(ok, now) && taskAlive == ok
    {
      hide Payload, After;
      AfterStep(born, log, Started);
      if !beating {
        ghost var was := current;
        Write(now, ok);
        if !ok {
          current := was;
          return;
        }
        log := log + [Started];
        beating, taskAlive := true, true;
      }
    }

    /** A failed write leaves the heartbeat task uncancelled. */
    method Stop(now: real, ok: bool)
      requires Valid()
      modifies `ready, `lifecycle, `operations, `beating, `taskAlive, `file, `log, `written, `current
      ensures Valid() && log == old(log) + [Stopped] && WroteIf(ok, now)
      ensures !ready && lifecycle == "stopped" && operations == []
      ensures (beating, taskAlive) == if ok then (false, false) else old((beating, taskAlive))
    {
      hide Payload, After;
      AfterStep(born, log, Stopped);
      ready, lifecycle, operations := false, "stopped", [];
      log := log + [Stopped];
      Write(now, ok);
      if ok { beating, taskAlive := false, false; }
    }

    method MarkReady(at: real, now: real, ok: bool)
      requires Valid()
      modifies `ready, `lifecycle, `lastProgress, `file, `log, `written, `current
      ensures Valid() && log == old(log) + [MarkedReady(at)] && WroteIf(ok, now)
      ensures ready && lifecycle == "running" && lastProgress == at
    {
      hide Payload, After;
      AfterStep(born, log, MarkedReady(at));
      ready, lifecycle, lastProgress := true, "running", at;
      log := log + [MarkedReady(at)];
      Write(now, ok);
    }

    method MarkDraining(at: real, now: real, ok: bool)
      requires Valid()
      modifies `lifecycle, `lastProgress, `file, `log, `written, `current
      ensures Valid() && log == old(log) + [MarkedDraining(at)] && WroteIf(ok, now)
      ensures lifecycle == "draining" && lastProgress == at
    {
      hide Payload, After;
      AfterStep(born, log, MarkedDraining(at));
      lifecycle, lastProgress := "draining", at;
      log := log + [MarkedDraining(at)];
      Write(now, ok);
    }

    /** Progress alone is not written until the next heartbeat. */
    method MarkProgress(at: real)
      requires Valid()
      modifies `lastProgress, `log
      ensures Valid() && log == old(log) + [MarkedProgress(at)] && lastProgress == at
    {
      hide Payload, After;
      AfterStep(born, log, MarkedProgress(at));
      lastProgress := at;
      log := log + [MarkedProgress(at)];
    }

    function Resolved(timeout: Option<real>): real {
      if timeout.Some? && timeout.value != 0.0 then timeout.value else config.operationTimeout
    }

    /** The new dictionary entry, under a fresh id. */
    method AddEntry(op: Operation)
      requires Valid()
      modifies `operations, `issued, `log, `current
      ensures Valid() && !current && log == old(log) + [Entered(Entry(old(issued), op))]
    {
      hide Payload, After, FreshIds;
      FreshStays(log, Entry(issued, op));
      AfterStep(born, log, Entered(Entry(issued, op)));
      operations := operations + [Entry(issued, op)];
      log := log + [Entered(Entry(issued, op))];
      issued := issued + 1;
      current := false;
    }

    /**
     * Entering `operation(name, timeout)`; a zero timeout falls back to the default like None.
     * A failed write raises before the protected block, so its entry stays without an exit to come.
     */
    method Enter(name: string, timeout: Option<real>, at: real, now: real, ok: bool) returns (r: Entering)
      requires Valid()
      modifies `operations, `issued, `file, `log, `written, `current
      ensures Valid()
      ensures Resolved(timeout) == match timeout
                                   case None => config.operationTimeout
                                   case Some(t) => if t == 0.0 then config.operationTimeout else t
      ensures r == if Resolved(timeout) <= 0.0 then Refused else if ok then Running(old(issued)) else WriteFailed
      ensures r.Refused? ==> log == old(log) && WroteIf(false, now) && current == old(current)
      ensures !r.Refused? ==>
                && WroteIf(ok, now)
                && log == old(log) + [Entered(Entry(old(issued), Operation(name, at, at + Resolved(timeout))))]
    {
      hide Payload, After, FreshIds;
      var resolved := Resolved(timeout);
      if resolved <= 0.0 { return Refused; }
      var id := issued;
      AddEntry(Operation(name, at, at + resolved));
      Write(now, ok);
      return if ok then Running(id) else WriteFailed;
    }

    /** Leaving the context manager, normally or by an exception. */
    method Exit(id: nat, at: real, now: real, ok: bool)
      requires Valid()
      modifies `operations, `lastProgress, `file, `log, `written, `current
      ensures Valid() && log == old(log) + [Exited(id, at)] && WroteIf(ok, now)
      ensures lastProgress == at && forall e :: e in operations <==> e in old(operations) && e.id != id
    {
      hide Payload, After;
      AfterStep(born, log, Exited(id, at));
      operations := Without(operations, id);
      lastProgress := at;
      log := log + [Exited(id, at)];
      Write(now, ok);
    }

    /** One turn of the heartbeat task; a failed write ends the task, and start does not replace it. */
    method HeartBeat(now: real, ok: bool)
      requires Valid() && taskAlive
      modifies `taskAlive, `file, `log, `written, `current
      ensures Valid() && log == old(log) + [Beat] && WroteIf(ok, now)
      ensures taskAlive == ok && current == (ok || old(current))
    {
      hide Payload, After;
      AfterStep(born, log, Beat);
      ghost var was := current;
      log := log + [Beat];
      Write(now, ok);
      if !ok {
        taskAlive := false;
        current := was;
      }
    }
  }

  /** Whatever calls came before, the file on disk tells the health of the state it was last written from. */
  lemma FileTellsLastWrite(r: RuntimeHealthReporter, stale: real, now: real, alive: int -> bool)
    requires r.Valid() && r.written.Some? && r.config.pid > 0 && stale > 0.0 && NamesVisible(r.written.value.0)
    ensures Accepts(r.file, stale, now, alive) <==>
            ShouldAccept(r.config, r.written.value.0, r.written.value.1, stale, now, alive)
  {
    WrittenFileTellsHealth(r.config, r.written.value.0, r.written.value.1, stale, now, alive);
  }

  /** Unless the last write failed, that is the reporter as it is now. */
  lemma FileTellsHealth(r: RuntimeHealthReporter, stale: real, now: real, alive: int -> bool)
    requires r.Valid() && r.current && r.config.pid > 0 && stale > 0.0 && NamesVisible(r.Now())
    ensures Accepts(r.file, stale, now, alive) <==>
              ShouldAccept(r.config, r.Now(), r.written.value.1, stale, now, alive)
  {
    WrittenFileTellsHealth(r.config, r.written.value.0, r.written.value.1, stale, now, alive);
  }

  ghost predicate NamesEntered(log: seq<Event>) { forall e | e in log && e.Entered? :: !Blank(e.entry.op.name) }

  /** Marked ready and not stopped since. */
  ghost predicate ReadySince(log: seq<Event>, i: int) {
    0 <= i < |log| && log[i].MarkedReady? && forall j | i < j < |log| :: !log[j].Stopped?
  }

  /** Marked draining, and neither stopped nor marked ready since. */
  ghost predicate DrainingSince(log: seq<Event>, i: int) {
    0 <= i < |log| && log[i].MarkedDraining? && forall j | i < j < |log| :: !log[j].Stopped? && !log[j].MarkedReady?
  }

  ghost predicate IsReady(log: seq<Event>) { exists i :: ReadySince(log, i) }

  ghost predicate IsDraining(log: seq<Event>) { exists i :: DrainingSince(log, i) }

  lemma SinceStep(p: seq<Event>, last: Event, i: int)
    requires 0 <= i < |p|
    ensures ReadySince(p + [last], i) <==> ReadySince(p, i) && !last.Stopped?
    ensures DrainingSince(p + [last], i) <==> DrainingSince(p, i) && !last.Stopped? && !last.MarkedReady?
  {
    var log := p + [last];
    assert log[|p|] == last && forall j | 0 <= j < |p| :: log[j] == p[j];
  }

  lemma ReadyStep(p: seq<Event>, last: Event)
    ensures IsReady(p + [last]) <==> last.MarkedReady? || (IsReady(p) && !last.Stopped?)
    ensures IsDraining(p + [last]) <==> last.MarkedDraining? || (IsDraining(p) && !last.Stopped? && !last.MarkedReady?)
  {
    var log := p + [last];
    forall i | 0 <= i < |p|
      ensures ReadySince(log, i) <==> ReadySince(p, i) && !last.Stopped?
      ensures DrainingSince(log, i) <==> DrainingSince(p, i) && !last.Stopped? && !last.MarkedReady?
    {
      SinceStep(p, last, i);
    }
    assert log[|p|] == last;
    assert last.MarkedReady? ==> ReadySince(log, |p|);
    assert last.MarkedDraining? ==> DrainingSince(log, |p|);
  }

  /** The two fields the checker looks at are told by the calls. */
  lemma {:induction false} FieldsTellCalls(born: real, log: seq<Event>)
    ensures After(born, log).ready <==> IsReady(log)
    ensures After(born, log).lifecycle == "draining" <==> IsDraining(log)
  {
    if log != [] {
      var p, last := log[..|log| - 1], log[|log| - 1];
      assert log == p + [last];
      FieldsTellCalls(born, p);
      ReadyStep(p, last);
    }
  }

  /**
   * The same in terms of the calls alone: marked ready or draining since the last stop, the last
   * write fresh, and, unless draining, no unfinished operation past its deadline.
   */
  lemma HealthOfRun(r: RuntimeHealthReporter, stale: real, now: real, alive: int -> bool)
    requires r.Valid() && r.current && r.config.pid > 0 && stale > 0.0
    requires NamesEntered(r.log)
    ensures Accepts(r.file, stale, now, alive) <==>
            && (IsReady(r.log) || IsDraining(r.log))
            && now - stale <= r.written.value.1 <= now + 5.0
            && alive(r.config.pid)
            && (IsDraining(r.log) || forall i | Live(r.log, i) :: now <= r.log[i].entry.op.deadlineAt)
  {
    hide IsReady, IsDraining, Accepts, Blank;
    forall e ensures e in r.operations <==> exists i :: Live(r.log, i) && r.log[i].entry == e {
      TrackedAreLive(r.born, r.log, e);
    }
    forall e | e in r.operations ensures !Blank(e.op.name) {
      var i :| Live(r.log, i) && r.log[i].entry == e;
      assert r.log[i] in r.log;
    }
    FieldsTellCalls(r.born, r.log);
    FileTellsHealth(r, stale, now, alive);
    forall i | Live(r.log, i) ensures r.log[i].entry in r.operations { }
  }

  /** Without further writes, as after a failed heartbeat, the file goes stale whatever the reporter's state. */
  lemma UnwrittenGoesStale(r: RuntimeHealthReporter, stale: real, now: real, alive: int -> bool)
    requires r.Valid() && r.written.Some? && r.config.pid > 0 && stale > 0.0 && NamesVisible(r.written.value.0)
    requires now > r.written.value.1 + stale
    ensures !Accepts(r.file, stale, now, alive)
  {
    FileTellsLastWrite(r, stale, now, alive);
  }

  /** An entry left behind by a failed write makes a later, written state unhealthy once its deadline has passed. */
  lemma LeftEntryGoesOverdue(r: RuntimeHealthReporter, i: int, stale: real, now: real, alive: int -> bool)
    requires r.Valid() && r.current && r.config.pid > 0 && stale > 0.0 && NamesEntered(r.log)
    requires Live(r.log, i) && !IsDraining(r.log) && now > r.log[i].entry.op.deadlineAt
    ensures !Accepts(r.file, stale, now, alive)
  {
    HealthOfRun(r, stale, now, alive);
  }
}
