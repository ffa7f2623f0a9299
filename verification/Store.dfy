/** The database, the in-memory sensor map and the tasks that share them (src/tasks.rs `update`,
    src/rpc.rs `change_label`, src/main.rs `Context::create`), as a state machine whose steps are the single
    transactions and locked map edits. Any interleaving of steps is a run. */
module Store {
  import opened Common
  import opened SensorLogs

  type Id = nat
  type HandlerId = nat
  type Label = string
  type Batch = map<Id, SensorState>

  datatype Sensor = Sensor(name: Option<Label>, state: SensorState)

  /** The id table, the stored logs, the logs opened by `Db::open`, and the sensor map. */
  datatype Shared = Shared(
    ids: map<Id, Option<Label>>, logs: map<Id, Log>, known: set<Id>, sensors: map<Id, Sensor>)

  /** Where the update task is. `Failed` is a task that returned an error. */
  datatype Task =
    | Idle
    | Checked(batch: Batch, unseen: set<Id>)
    | Registered(batch: Batch)
    | Logged(batch: Batch)
    | Failed

  /** Where a `change_label` call is: it has found the id, or it has written the label. */
  datatype Handler = Found(id: Id, name: Option<Label>) | Written(id: Id, name: Option<Label>)

  datatype System = System(db: Shared, task: Task, handlers: map<HandlerId, Handler>)

  datatype Step =
    | Receive(batch: Batch)                              // read transaction of `update`
    | RegisterIds                                        // write transaction for new ids, if any
    | LogReadings                                        // log transaction
    | EditSensors                                        // locked map edit
    | UpdateFails                                        // a database error ends the task
    | Check(h: HandlerId, id: Id, name: Option<Label>)  // read transaction of `change_label`
    | Commit(h: HandlerId)                               // its write transaction
    | EditLabel(h: HandlerId)                            // its locked map edit
    | Abandon(h: HandlerId)                              // a database error or a dropped request ends the call
    | Restart                                            // a new start of the program that comes up

  // ----- the single steps -----

  /** The database takes that many named tables. */
  const MAX_DBS: nat := 200

  /** One table for the ids, and one log for each of them. */
  predicate CanOpen(ids: map<Id, Option<Label>>) {
    1 + |ids| <= MAX_DBS
  }

  /** `Db::open` and `Context::create` on what is stored. */
  function Open(ids: map<Id, Option<Label>>, logs: map<Id, Log>): Shared {
    Shared(ids, OpenedLogs(ids.Keys, logs), ids.Keys, InitialSensors(ids))
  }

  /** A log for every id, empty if none is stored. */
  function OpenedLogs(ids: set<Id>, logs: map<Id, Log>): map<Id, Log> {
    map id | id in ids + logs.Keys :: if id in logs then logs[id] else []
  }

  function InitialSensors(ids: map<Id, Option<Label>>): map<Id, Sensor> {
    map id | id in ids :: Sensor(ids[id], Unconnected)
  }

  function PutNew(ids: map<Id, Option<Label>>, unseen: set<Id>): map<Id, Option<Label>> {
    map id | id in ids.Keys + unseen :: if id in unseen then None else ids[id]
  }

  /** The reading a batch holds for a sensor. */
  function Reading(batch: Batch, id: Id): Log {
    if id in batch && batch[id].Connected? then [ToEntry(batch[id].values)] else []
  }

  predicate CanLog(db: Shared, batch: Batch, id: Id) {
    id in db.known && id in db.logs && Reading(batch, id) != [] ==>
      Append(db.logs[id], ToEntry(batch[id].values)).Some?
  }

  /** The log transaction is all or nothing; ids without an open log are skipped. */
  function LogAll(db: Shared, batch: Batch): Option<Shared> {
    if forall id :: id in batch ==> CanLog(db, batch, id) then
      Some(db.(logs :=
        map id | id in db.logs :: if id in db.known then db.logs[id] + Reading(batch, id) else db.logs[id]))
    else None
  }

  function ApplyBatch(sensors: map<Id, Sensor>, batch: Batch): map<Id, Sensor> {
    map id | id in sensors.Keys + batch.Keys ::
      if id !in batch then sensors[id]
      else if id in sensors then sensors[id].(state := batch[id])
      else Sensor(None, batch[id])
  }

  function SetLabel(sensors: map<Id, Sensor>, id: Id, name: Option<Label>): map<Id, Sensor> {
    if id in sensors then sensors[id := sensors[id].(name := name)] else sensors
  }

  /** `None` when the step is not possible here. */
  function Next(s: System, step: Step): Option<System> {
    match step
    case Receive(batch) =>
      if s.task.Idle? then Some(s.(task := Checked(batch, batch.Keys - s.db.ids.Keys))) else None
    case RegisterIds =>
      if s.task.Checked? then
        Some(s.(task := Registered(s.task.batch),
                db := if s.task.unseen == {} then s.db else s.db.(ids := PutNew(s.db.ids, s.task.unseen))))
      else None
    case LogReadings =>
      if s.task.Registered? then
        match LogAll(s.db, s.task.batch)
        case Some(db) => Some(s.(task := Logged(s.task.batch), db := db))
        case None => Some(s.(task := Failed))
      else None
    case EditSensors =>
      if s.task.Logged? then
        Some(s.(task := Idle, db := s.db.(sensors := ApplyBatch(s.db.sensors, s.task.batch))))
      else None
    case UpdateFails =>
      if s.task.Idle? then None else Some(s.(task := Failed))
    case Check(h, id, name) =>
      if h in s.handlers then None
      else if id in s.db.ids then Some(s.(handlers := s.handlers[h := Found(id, name)]))
      else Some(s)
    case Commit(h) =>
      if h in s.handlers && s.handlers[h].Found? then
        var id, name := s.handlers[h].id, s.handlers[h].name;
        Some(s.(db := s.db.(ids := s.db.ids[id := name]), handlers := s.handlers[h := Written(id, name)]))
      else None
    case EditLabel(h) =>
      if h in s.handlers && s.handlers[h].Written? then
        Some(s.(db := s.db.(sensors := SetLabel(s.db.sensors, s.handlers[h].id, s.handlers[h].name)),
                handlers := s.handlers - {h}))
      else None
    case Abandon(h) =>
      if h in s.handlers then Some(s.(handlers := s.handlers - {h})) else None
    case Restart =>
      if CanOpen(s.db.ids) then Some(System(Open(s.db.ids, s.db.logs), Idle, map[])) else None
  }

  function Boot(ids: map<Id, Option<Label>>, logs: map<Id, Log>): System {
    System(Open(ids, logs), Idle, map[])
  }

  /** Where a sequence of steps leads; `None` when one of them is not possible. */
  function Exec(start: System, steps: seq<Step>): Option<System> {
    if steps == [] then Some(start)
    else
      match Exec(start, steps[..|steps| - 1])
      case None => None
      case Some(s) => Next(s, steps[|steps| - 1])
  }

  lemma {:induction false} ExecJoin(s: System, a: seq<Step>, t: System, b: seq<Step>)
    requires Exec(s, a) == Some(t)
    ensures Exec(s, a + b) == Exec(t, b)
  {
    if b == [] {
      assert a + b == a;
    } else {
      assert (a + b)[..|a + b| - 1] == a + b[..|b| - 1];
      ExecJoin(s, a, t, b[..|b| - 1]);
    }
  }

  lemma {:induction false} ExecOne(s: System, step: Step)
    ensures Exec(s, [step]) == Next(s, step)
  {
    assert [step][..0] == [];
  }

  lemma {:induction false} TwoSteps(s0: System, a: Step, s1: System, b: Step, s2: System)
    requires Next(s0, a) == Some(s1) && Next(s1, b) == Some(s2)
    ensures Exec(s0, [a, b]) == Some(s2)
  {
    ExecOne(s0, a);
    ExecSnoc(s0, [a], b);
    assert [a] + [b] == [a, b];
  }

  lemma {:induction false} ThreeSteps(s0: System, a: Step, s1: System, b: Step, s2: System, c: Step, s3: System)
    requires Next(s0, a) == Some(s1) && Next(s1, b) == Some(s2) && Next(s2, c) == Some(s3)
    ensures Exec(s0, [a, b, c]) == Some(s3)
  {
    TwoSteps(s0, a, s1, b, s2);
    ExecSnoc(s0, [a, b], c);
    assert [a, b] + [c] == [a, b, c];
  }

  lemma {:induction false} FourSteps(s0: System, a: Step, s1: System, b: Step, s2: System, c: Step, s3: System,
      d: Step, s4: System)
    requires Next(s0, a) == Some(s1) && Next(s1, b) == Some(s2) && Next(s2, c) == Some(s3) && Next(s3, d) == Some(s4)
    ensures Exec(s0, [a, b, c, d]) == Some(s4)
  {
    ThreeSteps(s0, a, s1, b, s2, c, s3);
    ExecSnoc(s0, [a, b, c], d);
    assert [a, b, c] + [d] == [a, b, c, d];
  }

  lemma {:induction false} ExecSnoc(start: System, front: seq<Step>, step: Step)
    ensures Exec(start, front + [step])
            == match Exec(start, front) case None => None case Some(s) => Next(s, step)
  {
    assert (front + [step])[..|front + [step]| - 1] == front;
  }
}

/** What every interleaving keeps. */
module StoreSafety {
  import opened Common
  import opened SensorLogs
  import opened Store

  ghost predicate LogsIncrease(logs: map<Id, Log>) {
    forall id :: id in logs ==> Increasing(logs[id])
  }

  /** How far the sensor map lags behind the id table, by the state of the update task. */
  predicate MapMatchesTable(s: System) {
    match s.task
    case Idle => s.db.sensors.Keys == s.db.ids.Keys
    case Checked(batch, unseen) => s.db.sensors.Keys == s.db.ids.Keys && unseen == batch.Keys - s.db.ids.Keys
    case Registered(batch) => s.db.ids.Keys == s.db.sensors.Keys + batch.Keys
    case Logged(batch) => s.db.ids.Keys == s.db.sensors.Keys + batch.Keys
    case Failed => s.db.sensors.Keys <= s.db.ids.Keys
  }

  ghost predicate Inv(s: System) {
    && MapMatchesTable(s)
    && s.db.known <= s.db.ids.Keys && s.db.known <= s.db.logs.Keys
    && (forall h :: h in s.handlers ==> s.handlers[h].id in s.db.ids)
    && LogsIncrease(s.db.logs)
  }

  lemma {:induction false} NextKeepsInv(s: System, step: Step)
    requires Inv(s) && Next(s, step).Some?
    ensures Inv(Next(s, step).value)
  {
    match step
    case RegisterIds => RegisterKeepsInv(s);
    case LogReadings => LogKeepsInv(s);
    case Restart => RestartKeepsInv(s);
    case Receive(_) => TaskKeepsInv(s, step);
    case EditSensors => TaskKeepsInv(s, step);
    case UpdateFails => TaskKeepsInv(s, step);
    case _ => CallKeepsInv(s, step);
  }

  lemma {:induction false} RestartKeepsInv(s: System)
    requires Inv(s) && Next(s, Restart).Some?
    ensures Inv(Next(s, Restart).value)
  {
  }

  lemma {:induction false} TaskKeepsInv(s: System, step: Step)
    requires Inv(s) && Next(s, step).Some? && (step.Receive? || step.EditSensors? || step.UpdateFails?)
    ensures Inv(Next(s, step).value)
  {
  }

  lemma {:induction false} CallKeepsInv(s: System, step: Step)
    requires Inv(s) && Next(s, step).Some? && (step.Check? || step.Commit? || step.EditLabel? || step.Abandon?)
    ensures Inv(Next(s, step).value)
  {
  }

  lemma {:induction false} RegisterKeepsInv(s: System)
    requires Inv(s) && s.task.Checked?
    ensures Inv(Next(s, RegisterIds).value)
  {
    assert PutNew(s.db.ids, s.task.unseen).Keys == s.db.ids.Keys + s.task.unseen;
  }

  lemma {:induction false} LogKeepsInv(s: System)
    requires Inv(s) && s.task.Registered?
    ensures Inv(Next(s, LogReadings).value)
  {
    var batch := s.task.batch;
    if LogAll(s.db, batch).Some? {
      var logs := LogAll(s.db, batch).value.logs;
      forall id | id in logs ensures Increasing(logs[id]) {
        if id in s.db.known && Reading(batch, id) != [] {
          assert CanLog(s.db, batch, id);
          AppendLaw(s.db.logs[id], ToEntry(batch[id].values));
        } else {
          assert s.db.logs[id] + [] == s.db.logs[id];
        }
      }
    }
  }

  lemma {:induction false} RunsKeepInv(start: System, steps: seq<Step>)
    requires Inv(start) && Exec(start, steps).Some?
    ensures Inv(Exec(start, steps).value)
  {
    if steps != [] {
      RunsKeepInv(start, steps[..|steps| - 1]);
      NextKeepsInv(Exec(start, steps[..|steps| - 1]).value, steps[|steps| - 1]);
    }
  }

  lemma {:induction false} BootIsSound(ids: map<Id, Option<Label>>, logs: map<Id, Log>)
    requires LogsIncrease(logs)
    ensures Inv(Boot(ids, logs))
  {
  }

  /** In every interleaving the sensor map's keys are ids of the table, and they are all of them unless the
      update task has failed or is between registering new ids and adding them to the map. */
  lemma {:induction false} SensorMapFollowsIdTable(ids: map<Id, Option<Label>>, logs: map<Id, Log>, steps: seq<Step>)
    requires LogsIncrease(logs) && Exec(Boot(ids, logs), steps).Some?
    ensures var s := Exec(Boot(ids, logs), steps).value;
      && s.db.sensors.Keys <= s.db.ids.Keys
      && (s.task.Idle? || s.task.Checked? ==> s.db.sensors.Keys == s.db.ids.Keys)
      && (s.task.Registered? || s.task.Logged? ==> s.db.ids.Keys - s.db.sensors.Keys <= s.task.batch.Keys)
  {
    BootIsSound(ids, logs);
    RunsKeepInv(Boot(ids, logs), steps);
  }

  /** The default entry of `update` never overwrites a label and `change_label` never creates an id, although
      each checks in one transaction and writes in another. */
  lemma {:induction false} WritesDoNotClash(start: System, steps: seq<Step>, step: Step)
    requires Inv(start) && Exec(start, steps).Some? && Next(Exec(start, steps).value, step).Some?
    ensures var s := Exec(start, steps).value;
            DoesNotClash(s, step, Next(s, step).value)
  {
    RunsKeepInv(start, steps);
    StepDoesNotClash(Exec(start, steps).value, step);
  }

  ghost predicate DoesNotClash(s: System, step: Step, s': System) {
    && s.db.ids.Keys <= s'.db.ids.Keys
    && (forall id :: id in s.db.ids && id in s'.db.ids && s'.db.ids[id] != s.db.ids[id] ==>
          step.Commit? && step.h in s.handlers && s.handlers[step.h] == Found(id, s'.db.ids[id]))
    && (s'.db.ids.Keys != s.db.ids.Keys ==> step.RegisterIds?)
    && (forall id :: id in s'.db.ids && id !in s.db.ids ==> s'.db.ids[id] == None)
  }

  lemma {:induction false} StepDoesNotClash(s: System, step: Step)
    requires Inv(s) && Next(s, step).Some?
    ensures DoesNotClash(s, step, Next(s, step).value)
  {
  }

  // ----- the stored label -----

  /** The label of the last committed change of `id`, if there was one. */
  function LastCommit(start: System, steps: seq<Step>, id: Id): Option<Option<Label>> {
    if steps == [] then None
    else
      var front, last := steps[..|steps| - 1], steps[|steps| - 1];
      if && last.Commit? && Exec(start, front).Some? && last.h in Exec(start, front).value.handlers
         && Exec(start, front).value.handlers[last.h].id == id
      then Some(Exec(start, front).value.handlers[last.h].name)
      else LastCommit(start, front, id)
  }

  /** The stored label of an id is that of its last committed change, or what it was at the start, or none for
      an id the run registered. */
  lemma {:induction false} StoredLabelIsLastCommit(start: System, steps: seq<Step>, id: Id)
    requires Inv(start) && Exec(start, steps).Some? && id in Exec(start, steps).value.db.ids
    ensures Exec(start, steps).value.db.ids[id] ==
      match LastCommit(start, steps, id)
      case Some(name) => name
      case None => if id in start.db.ids then start.db.ids[id] else None
  {
    if steps != [] {
      var front := steps[..|steps| - 1];
      var s := Exec(start, front).value;
      RunsKeepInv(start, front);
      WritesDoNotClash(start, front, steps[|steps| - 1]);
      if id in s.db.ids {
        StoredLabelIsLastCommit(start, front, id);
      } else {
        NoCommitBeforeRegistration(start, front, id);
      }
    }
  }

  lemma {:induction false} NoCommitBeforeRegistration(start: System, steps: seq<Step>, id: Id)
    requires Inv(start) && Exec(start, steps).Some? && id !in Exec(start, steps).value.db.ids
    ensures LastCommit(start, steps, id).None? && id !in start.db.ids
  {
    if steps != [] {
      var front, last := steps[..|steps| - 1], steps[|steps| - 1];
      RunsKeepInv(start, front);
      TableGrows(Exec(start, front).value, last);
      NoCommitBeforeRegistration(start, front, id);
    }
  }

  lemma {:induction false} TableGrows(s: System, step: Step)
    requires Next(s, step).Some?
    ensures s.db.ids.Keys <= Next(s, step).value.db.ids.Keys
  {
  }

  // ----- restart -----

  /** From any reachable database the program comes up again exactly when it has fewer than 200 ids. Then the map
      has exactly the stored ids, with the stored labels and no readings, every id has an open log, and no stored
      reading is lost. */
  lemma {:induction false} RestartHeals(start: System, steps: seq<Step>)
    requires Inv(start) && Exec(start, steps).Some?
    ensures var s := Exec(start, steps).value;
            var o := Next(s, Restart);
      && (o.Some? <==> |s.db.ids| <= 199)
      && (o.Some? ==> Healed(s, o.value) && Inv(o.value))
  {
    RunsKeepInv(start, steps);
    var s := Exec(start, steps).value;
    if CanOpen(s.db.ids) {
      NextKeepsInv(s, Restart);
    }
  }

  ghost predicate Healed(s: System, s': System) {
    && s'.db.ids == s.db.ids && s'.db.sensors.Keys == s'.db.ids.Keys && s'.db.known == s'.db.ids.Keys
    && (forall id :: id in s'.db.ids ==> id in s'.db.logs)
    && (forall id :: id in s'.db.ids ==> s'.db.sensors[id] == Sensor(s'.db.ids[id], Unconnected))
    && (forall id :: id in s.db.logs ==> id in s'.db.logs && s'.db.logs[id] == s.db.logs[id])
    && s'.task == Idle && s'.handlers == map[]
  }

  /** On an empty database any first batch is taken, and the program comes up again after it exactly when the batch
      has fewer than 200 sensors. */
  lemma {:induction false} FirstBatchThenRestart(batch: Batch)
    ensures var taken := Exec(Boot(map[], map[]), [Receive(batch), RegisterIds, LogReadings, EditSensors]);
      && taken.Some? && taken.value.task == Idle && taken.value.db.ids.Keys == batch.Keys
      && (Next(taken.value, Restart).Some? <==> |batch| <= 199)
  {
    var s := Boot(map[], map[]);
    TakesBatch(s, batch);
    assert batch.Keys - s.db.ids.Keys == batch.Keys;
    assert PutNew(map[], batch.Keys).Keys == batch.Keys;
    var ids := Exec(s, [Receive(batch), RegisterIds, LogReadings, EditSensors]).value.db.ids;
    assert |ids| == |ids.Keys| && |batch| == |batch.Keys|;
  }

  /** The four steps of a batch whose readings can be logged. */
  lemma {:induction false} TakesBatch(s: System, batch: Batch)
    requires s.task == Idle && LogAll(s.db, batch).Some?
    ensures var end := Exec(s, [Receive(batch), RegisterIds, LogReadings, EditSensors]);
      end.Some? && end.value.task == Idle && end.value.db.ids == PutNew(s.db.ids, batch.Keys - s.db.ids.Keys)
  {
    var unseen := batch.Keys - s.db.ids.Keys;
    var s1 := s.(task := Checked(batch, unseen));
    var s2 := Next(s1, RegisterIds).value;
    assert s2.db.ids == PutNew(s.db.ids, unseen);
    assert forall id :: CanLog(s2.db, batch, id) <==> CanLog(s.db, batch, id);
    var s3 := Next(s2, LogReadings).value;
    var s4 := Next(s3, EditSensors).value;
    FourSteps(s, Receive(batch), s1, RegisterIds, s2, LogReadings, s3, EditSensors, s4);
  }

  // ----- log history -----

  /** The batches whose log transaction committed. */
  function Committed(start: System, steps: seq<Step>): seq<Batch> {
    if steps == [] then []
    else
      var front, last := steps[..|steps| - 1], steps[|steps| - 1];
      if Exec(start, front).Some? && Commits(Exec(start, front).value, last)
      then Committed(start, front) + [Exec(start, front).value.task.batch]
      else Committed(start, front)
  }

  predicate Commits(s: System, step: Step) {
    step.LogReadings? && s.task.Registered? && LogAll(s.db, s.task.batch).Some?
  }

  function Readings(batches: seq<Batch>, id: Id): Log {
    if batches == [] then []
    else Readings(batches[..|batches| - 1], id) + Reading(batches[|batches| - 1], id)
  }

  lemma {:induction false} ReadingsSnoc(batches: seq<Batch>, b: Batch, id: Id)
    ensures Readings(batches + [b], id) == Readings(batches, id) + Reading(b, id)
  {
    assert (batches + [b])[..|batches + [b]| - 1] == batches;
  }

  lemma {:induction false} CommittedStep(start: System, front: seq<Step>, last: Step, id: Id)
    requires Exec(start, front).Some?
    ensures var s := Exec(start, front).value;
            Readings(Committed(start, front + [last]), id)
            == Readings(Committed(start, front), id) + (if Commits(s, last) then Reading(s.task.batch, id) else [])
  {
    assert (front + [last])[..|front + [last]| - 1] == front;
    var s := Exec(start, front).value;
    if Commits(s, last) {
      ReadingsSnoc(Committed(start, front), s.task.batch, id);
    } else {
      assert Readings(Committed(start, front), id) + [] == Readings(Committed(start, front), id);
    }
  }

  /** Only a committed log transaction touches a log, and only an open one. */
  lemma {:induction false} LogsMoveOnlyByCommit(s: System, step: Step, id: Id)
    requires Inv(s) && Next(s, step).Some?
    ensures var s' := Next(s, step).value;
      && (id in s.db.known ==>
            && id in s'.db.known && id in s'.db.logs
            && s'.db.logs[id] == s.db.logs[id] + (if Commits(s, step) then Reading(s.task.batch, id) else []))
      && (id !in s.db.known && step != Restart ==>
            && id !in s'.db.known && (id in s'.db.logs <==> id in s.db.logs)
            && (id in s.db.logs ==> s'.db.logs[id] == s.db.logs[id]))
  {
    if id in s.db.known {
      assert s.db.logs[id] + [] == s.db.logs[id];
    }
  }

  /** For an id whose log was open at the start: its log after any run, restarts included, is the initial log
      followed by its readings from the committed batches, in order, with increasing times. */
  lemma {:induction false} LogHistory(start: System, steps: seq<Step>, id: Id)
    requires Inv(start) && id in start.db.known && Exec(start, steps).Some?
    ensures var db := Exec(start, steps).value.db;
      && id in db.known && id in db.logs && Increasing(db.logs[id])
      && db.logs[id] == start.db.logs[id] + Readings(Committed(start, steps), id)
  {
    RunsKeepInv(start, steps);
    LogContents(start, steps, id);
  }

  ghost predicate HasLogged(start: System, steps: seq<Step>, id: Id)
    requires id in start.db.logs && Exec(start, steps).Some?
  {
    var db := Exec(start, steps).value.db;
    && id in db.known && id in db.logs
    && db.logs[id] == start.db.logs[id] + Readings(Committed(start, steps), id)
  }

  lemma {:induction false} LogContents(start: System, steps: seq<Step>, id: Id)
    requires Inv(start) && id in start.db.known && Exec(start, steps).Some?
    ensures HasLogged(start, steps, id)
  {
    if steps != [] {
      var front, last := steps[..|steps| - 1], steps[|steps| - 1];
      LogContents(start, front, id);
      assert steps == front + [last];
      LogsOneMore(start, front, last, id);
    }
  }

  lemma {:induction false} LogsOneMore(start: System, front: seq<Step>, last: Step, id: Id)
    requires Inv(start) && id in start.db.known && Exec(start, front).Some? && HasLogged(start, front, id)
    requires Exec(start, front + [last]).Some?
    ensures HasLogged(start, front + [last], id)
  {
    RunsKeepInv(start, front);
    ExecSnoc(start, front, last);
    HistoryStep(Exec(start, front).value, last, id, start.db.logs[id], Readings(Committed(start, front), id));
    CommittedStep(start, front, last, id);
  }

  lemma {:induction false} HistoryStep(s: System, step: Step, id: Id, initial: Log, readings: Log)
    requires Inv(s) && Next(s, step).Some? && id in s.db.known && s.db.logs[id] == initial + readings
    ensures var db := Next(s, step).value.db;
      && id in db.known && id in db.logs
      && db.logs[id] == initial + (readings + (if Commits(s, step) then Reading(s.task.batch, id) else []))
  {
    LogsMoveOnlyByCommit(s, step, id);
  }

  /** Every earlier state of such a log is a prefix of every later one. */
  lemma {:induction false} EarlierLogIsPrefix(start: System, steps: seq<Step>, more: seq<Step>, id: Id)
    requires Inv(start) && id in start.db.known && Exec(start, steps + more).Some?
    ensures Exec(start, steps).Some? && id in Exec(start, steps).value.db.logs
    ensures id in Exec(start, steps + more).value.db.logs
    ensures Exec(start, steps).value.db.logs[id] <= Exec(start, steps + more).value.db.logs[id]
  {
    PrefixRuns(start, steps, more);
    var t := Exec(start, steps).value;
    RunsKeepInv(start, steps);
    LogHistory(start, steps, id);
    ExecJoin(start, steps, t, more);
    LogHistory(t, more, id);
  }

  lemma {:induction false} PrefixRuns(start: System, steps: seq<Step>, more: seq<Step>)
    requires Exec(start, steps + more).Some?
    ensures Exec(start, steps).Some?
  {
    if more == [] {
      assert steps + more == steps;
    } else {
      assert steps + more == (steps + more[..|more| - 1]) + [more[|more| - 1]];
      ExecSnoc(start, steps + more[..|more| - 1], more[|more| - 1]);
      PrefixRuns(start, steps, more[..|more| - 1]);
    }
  }

  /** An id the start did not know has no open log until a restart: its readings of this session are stored
      nowhere. */
  lemma {:induction false} NewIdsAreNotLogged(start: System, steps: seq<Step>, id: Id)
    requires Inv(start) && id !in start.db.known && Exec(start, steps).Some? && Restart !in steps
    ensures var db := Exec(start, steps).value.db;
            id !in db.known && (id in db.logs <==> id in start.db.logs)
            && (id in start.db.logs ==> db.logs[id] == start.db.logs[id])
  {
    if steps != [] {
      var front, last := steps[..|steps| - 1], steps[|steps| - 1];
      NewIdsAreNotLogged(start, front, id);
      RunsKeepInv(start, front);
      LogsMoveOnlyByCommit(Exec(start, front).value, last, id);
    }
  }

  /** The log transaction, and with it the update task, fails exactly when a reading for an open log is not newer
      than everything stored there. */
  lemma {:induction false} UpdateFailsIff(s: System)
    requires Inv(s) && s.task.Registered?
    ensures Next(s, LogReadings).value.task.Failed? <==>
      exists id, e :: id in s.task.batch && s.task.batch[id].Connected? && id in s.db.known
                      && e in s.db.logs[id] && e.time >= s.task.batch[id].values.timestamp
  {
    var batch := s.task.batch;
    if LogAll(s.db, batch).None? {
      var id :| id in batch && !CanLog(s.db, batch, id);
      AppendLaw(s.db.logs[id], ToEntry(batch[id].values));
      var e :| e in s.db.logs[id] && !(e.time < batch[id].values.timestamp);
      assert id in s.db.known;
    } else {
      forall id, e | id in batch && batch[id].Connected? && id in s.db.known && e in s.db.logs[id]
        ensures e.time < batch[id].values.timestamp
      {
        assert CanLog(s.db, batch, id);
        AppendLaw(s.db.logs[id], ToEntry(batch[id].values));
      }
    }
  }
}
