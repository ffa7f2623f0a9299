/** The program's context as it runs: the database tables, the sensor map under its lock, and what is broadcast
    (src/main.rs, src/db.rs, src/tasks.rs, src/rpc.rs). Every method is one transaction or one locked edit, or a
    sequence of them. */
module Contexts {
  import opened Common
  import opened SensorLogs
  import opened SortedKeys
  import opened Store
  import opened StoreSafety
  import opened StoreLabels

  datatype CurrentValues = CurrentValues(temperature: int, pressure: u32, humidity: u32)

  datatype Field = Field(id: Id, name: Option<Label>, values: Option<CurrentValues>)

  type OverviewResponse = seq<Field>

  /** Values are shown exactly for a connected sensor, and then they are the ones of its reading. */
  predicate ShowsState(values: Option<CurrentValues>, state: SensorState) {
    && (values.Some? <==> state.Connected?)
    && (values.Some? ==>
          && values.value.temperature == state.values.temperature
          && values.value.pressure == state.values.pressure
          && values.value.humidity == state.values.humidity)
  }

  /** One field for each id, in order. */
  ghost predicate Lists(o: OverviewResponse, ids: set<Id>) {
    && (forall id :: id in ids <==> exists i :: 0 <= i < |o| && o[i].id == id)
    && forall i, j :: 0 <= i < j < |o| ==> o[i].id < o[j].id
  }

  /** One field for each sensor of the map, in order, with its state. */
  ghost predicate ShowsSensors(o: OverviewResponse, sensors: map<Id, Sensor>) {
    && Lists(o, sensors.Keys)
    && forall i :: 0 <= i < |o| ==> o[i].id in sensors && ShowsState(o[i].values, sensors[o[i].id].state)
  }

  /** The labels shown are those of the table; an id it does not have is shown without one. */
  predicate ShowsStoredLabels(o: OverviewResponse, ids: map<Id, Option<Label>>) {
    forall i :: 0 <= i < |o| ==>
      if o[i].id in ids then o[i].name == ids[o[i].id] else o[i].name == None
  }

  predicate ShowsOwnLabels(o: OverviewResponse, sensors: map<Id, Sensor>) {
    forall i :: 0 <= i < |o| ==> o[i].id in sensors && o[i].name == sensors[o[i].id].name
  }

  function Shown(state: SensorState): Option<CurrentValues> {
    match state
    case Connected(v) => Some(CurrentValues(v.temperature, v.pressure, v.humidity))
    case Unconnected => None
  }

  /** `overview`: states from memory, labels from the database. */
  function OverviewOf(db: Shared): OverviewResponse {
    var ids := Sorted(db.sensors.Keys);
    seq(|ids|, i requires 0 <= i < |ids| =>
      assert ids[i] in ids;
      Field(ids[i], if ids[i] in db.ids then db.ids[ids[i]] else None, Shown(db.sensors[ids[i]].state)))
  }

  /** `create_overview_response`: all from memory. */
  function BroadcastOf(sensors: map<Id, Sensor>): OverviewResponse {
    var ids := Sorted(sensors.Keys);
    seq(|ids|, i requires 0 <= i < |ids| =>
      assert ids[i] in ids;
      Field(ids[i], sensors[ids[i]].name, Shown(sensors[ids[i]].state)))
  }

  lemma {:induction false} ListsSorted(o: OverviewResponse, ids: set<Id>)
    requires |o| == |Sorted(ids)| && forall i :: 0 <= i < |o| ==> o[i].id == Sorted(ids)[i]
    ensures Lists(o, ids) && forall i :: 0 <= i < |o| ==> o[i].id in ids
  {
    var keys := Sorted(ids);
    forall id ensures id in ids <==> exists i :: 0 <= i < |o| && o[i].id == id {
      assert id in ids <==> id in keys;
      if id in keys {
        var i :| 0 <= i < |keys| && keys[i] == id;
        assert o[i].id == id;
      }
      if i :| 0 <= i < |o| && o[i].id == id {
        assert keys[i] in keys;
      }
    }
    forall i | 0 <= i < |o| ensures o[i].id in ids {
      assert keys[i] in keys;
    }
  }

  lemma {:induction false} ShownShows(state: SensorState)
    ensures ShowsState(Shown(state), state)
  {
  }

  lemma {:induction false} OverviewShows(db: Shared)
    ensures ShowsSensors(OverviewOf(db), db.sensors) && ShowsStoredLabels(OverviewOf(db), db.ids)
  {
    var o := OverviewOf(db);
    ListsSorted(o, db.sensors.Keys);
    forall i | 0 <= i < |o| ensures ShowsState(o[i].values, db.sensors[o[i].id].state) {
      ShownShows(db.sensors[o[i].id].state);
    }
  }

  lemma {:induction false} BroadcastShows(sensors: map<Id, Sensor>)
    ensures ShowsSensors(BroadcastOf(sensors), sensors) && ShowsOwnLabels(BroadcastOf(sensors), sensors)
  {
    var o := BroadcastOf(sensors);
    ListsSorted(o, sensors.Keys);
    forall i | 0 <= i < |o| ensures ShowsState(o[i].values, sensors[o[i].id].state) {
      ShownShows(sensors[o[i].id].state);
    }
  }

  /** A client that asks and a client that listens see the same exactly when every label in memory is the stored
      one. */
  lemma {:induction false} OverviewIsBroadcastIff(db: Shared)
    ensures OverviewOf(db) == BroadcastOf(db.sensors) <==>
      forall id :: id in db.sensors ==> db.sensors[id].name == if id in db.ids then db.ids[id] else None
  {
    var ids := Sorted(db.sensors.Keys);
    var o, b := OverviewOf(db), BroadcastOf(db.sensors);
    if o == b {
      forall id | id in db.sensors ensures db.sensors[id].name == if id in db.ids then db.ids[id] else None {
        assert id in ids;
        var i :| 0 <= i < |ids| && ids[i] == id;
        assert o[i].name == b[i].name;
      }
    }
  }

  /** After any careful run, with no call on its way, asking and listening agree. */
  lemma {:induction false} QuietOverviewIsBroadcast(ids: map<Id, Option<Label>>, logs: map<Id, Log>, steps: seq<Step>)
    requires LogsIncrease(logs) && Careful(Boot(ids, logs), steps) && Exec(Boot(ids, logs), steps).Some?
    requires Exec(Boot(ids, logs), steps).value.handlers == map[]
    ensures var db := Exec(Boot(ids, logs), steps).value.db; OverviewOf(db) == BroadcastOf(db.sensors)
  {
    var db := Exec(Boot(ids, logs), steps).value.db;
    forall id | id in db.sensors ensures id in db.ids && db.sensors[id].name == db.ids[id] {
      LabelsAgree(ids, logs, steps, id);
    }
    OverviewIsBroadcastIff(db);
  }

  /** What the last map edit of this run of the program has broadcast. */
  function LastBroadcast(start: System, steps: seq<Step>): Option<OverviewResponse> {
    if steps == [] || Exec(start, steps).None? then None
    else
      match steps[|steps| - 1]
      case EditSensors => Some(BroadcastOf(Exec(start, steps).value.db.sensors))
      case EditLabel(_) => Some(BroadcastOf(Exec(start, steps).value.db.sensors))
      case Restart => None
      case _ => LastBroadcast(start, steps[..|steps| - 1])
  }

  /** In every interleaving a client that listens has seen the map as it is, once anything has been broadcast. */
  lemma {:induction false} LastBroadcastIsCurrent(start: System, steps: seq<Step>)
    requires Exec(start, steps).Some? && LastBroadcast(start, steps).Some?
    ensures LastBroadcast(start, steps).value == BroadcastOf(Exec(start, steps).value.db.sensors)
  {
    var last := steps[|steps| - 1];
    if !last.EditSensors? && !last.EditLabel? {
      LastBroadcastIsCurrent(start, steps[..|steps| - 1]);
      MapStays(Exec(start, steps[..|steps| - 1]).value, last);
    }
  }

  lemma {:induction false} MapStays(s: System, step: Step)
    requires Next(s, step).Some? && !step.EditSensors? && !step.EditLabel? && !step.Restart?
    ensures Next(s, step).value.db.sensors == s.db.sensors
  {
  }

  /** After any careful run, with no call on its way, the last broadcast is what asking now would return. */
  lemma {:induction false} QuietBroadcastIsOverview(ids: map<Id, Option<Label>>, logs: map<Id, Log>, steps: seq<Step>)
    requires LogsIncrease(logs) && Careful(Boot(ids, logs), steps) && Exec(Boot(ids, logs), steps).Some?
    requires Exec(Boot(ids, logs), steps).value.handlers == map[]
    requires LastBroadcast(Boot(ids, logs), steps).Some?
    ensures LastBroadcast(Boot(ids, logs), steps).value == OverviewOf(Exec(Boot(ids, logs), steps).value.db)
  {
    LastBroadcastIsCurrent(Boot(ids, logs), steps);
    QuietOverviewIsBroadcast(ids, logs, steps);
  }

  // ----- loops over the keys of a map -----

  /** `done` holds exactly the first `i` of the keys. */
  ghost predicate Progress(keys: seq<Id>, i: nat, done: set<Id>)
    requires i <= |keys|
  {
    && (forall j :: 0 <= j < i ==> keys[j] in done)
    && (forall j :: i <= j < |keys| ==> keys[j] !in done)
    && (forall id :: id in done ==> id in keys)
  }

  lemma {:induction false} ProgressStep(keys: seq<Id>, i: nat, done: set<Id>)
    requires i < |keys| && Progress(keys, i, done)
    requires forall j, k :: 0 <= j < k < |keys| ==> keys[j] < keys[k]
    ensures keys[i] in keys && keys[i] !in done && Progress(keys, i + 1, done + {keys[i]})
  {
  }

  lemma {:induction false} ProgressEnds(keys: seq<Id>, all: set<Id>, done: set<Id>)
    requires Progress(keys, |keys|, done) && forall id :: id in keys <==> id in all
    ensures done == all
  {
  }

  lemma {:induction false} SortedLength(s: set<nat>)
    ensures |Sorted(s)| == |s|
    decreases |s|
  {
    if s != {} {
      SortedLength(s - {Least(s)});
    }
  }

  lemma {:induction false} OpenOne(done: set<Id>, stored: map<Id, Log>, id: Id)
    ensures OpenedLogs(done + {id}, stored)
            == if id in OpenedLogs(done, stored) then OpenedLogs(done, stored) else OpenedLogs(done, stored)[id := []]
  {
    var now, next := OpenedLogs(done, stored), OpenedLogs(done + {id}, stored);
    assert next.Keys == now.Keys + {id};
  }

  /** `Db::open`: a table for the ids and a log for every known id; `None` when the database takes no more tables. */
  method OpenLogs(addrs: set<Id>, stored: map<Id, Log>) returns (sensorLog: Option<map<Id, Log>>)
    ensures sensorLog.Some? <==> |addrs| <= 199
    ensures sensorLog.Some? ==> sensorLog.value == OpenedLogs(addrs, stored)
  {
    var logs := stored;
    var tables := 1;
    var keys := Sorted(addrs);
    SortedLength(addrs);
    ghost var done: set<Id> := {};
    assert logs == OpenedLogs(done, stored);
    for i := 0 to |keys|
      invariant Progress(keys, i, done)
      invariant tables == 1 + i <= MAX_DBS
      invariant logs == OpenedLogs(done, stored)
    {
      ProgressStep(keys, i, done);
      if tables == MAX_DBS {
        return None;
      }
      tables := tables + 1;
      OpenOne(done, stored, keys[i]);
      if keys[i] !in logs {
        logs := logs[keys[i] := []];
      }
      done := done + {keys[i]};
    }
    ProgressEnds(keys, addrs, done);
    sensorLog := Some(logs);
  }

  /** The loop of `Context::create`. */
  method FillSensors(stored: map<Id, Option<Label>>) returns (sensors: map<Id, Sensor>)
    ensures sensors == InitialSensors(stored)
  {
    sensors := map[];
    var keys := Sorted(stored.Keys);
    ghost var done: set<Id> := {};
    for i := 0 to |keys|
      invariant Progress(keys, i, done)
      invariant done <= stored.Keys && sensors.Keys == done
      invariant forall id :: id in sensors ==> sensors[id] == Sensor(stored[id], Unconnected)
    {
      ProgressStep(keys, i, done);
      sensors := sensors[keys[i] := Sensor(stored[keys[i]], Unconnected)];
      done := done + {keys[i]};
    }
    ProgressEnds(keys, stored.Keys, done);
  }

  ghost function LoggedSoFar(db: Shared, batch: Batch, done: set<Id>): map<Id, Log> {
    map id | id in db.logs :: if id in db.known && id in done then db.logs[id] + Reading(batch, id) else db.logs[id]
  }

  /** `LogTransaction::log`: an id without an open log is skipped. */
  function LogInto(txn: map<Id, Log>, known: set<Id>, id: Id, values: SensorValues): Option<map<Id, Log>>
    requires known <= txn.Keys
  {
    if id !in known then Some(txn)
    else
      match Append(txn[id], ToEntry(values))
      case None => None
      case Some(log) => Some(txn[id := log])
  }

  lemma {:induction false} LogOne(db: Shared, batch: Batch, done: set<Id>, id: Id)
    requires id in batch && id !in done && db.known <= db.logs.Keys
    ensures var now := LoggedSoFar(db, batch, done);
      if batch[id].Connected?
      then LogInto(now, db.known, id, batch[id].values)
           == if CanLog(db, batch, id) then Some(LoggedSoFar(db, batch, done + {id})) else None
      else CanLog(db, batch, id) && LoggedSoFar(db, batch, done + {id}) == now
  {
    var now, next := LoggedSoFar(db, batch, done), LoggedSoFar(db, batch, done + {id});
    assert next.Keys == now.Keys;
    assert id in db.logs ==> db.logs[id] + [] == db.logs[id];
    if id in db.known && batch[id].Connected? && CanLog(db, batch, id) {
      assert next == now[id := db.logs[id] + Reading(batch, id)];
    } else {
      assert id !in db.known || batch[id].Unconnected? ==> next == now;
    }
  }

  lemma {:induction false} LoggedAll(db: Shared, batch: Batch)
    requires forall id :: id in batch ==> CanLog(db, batch, id)
    ensures LogAll(db, batch) == Some(db.(logs := LoggedSoFar(db, batch, batch.Keys)))
  {
    var a, b := LogAll(db, batch).value.logs, LoggedSoFar(db, batch, batch.Keys);
    forall id | id in db.logs ensures a[id] == b[id] {
      assert id !in batch ==> db.logs[id] + [] == db.logs[id];
    }
    assert a == b;
  }

  ghost function AppliedSoFar(sensors: map<Id, Sensor>, batch: Batch, done: set<Id>): map<Id, Sensor> {
    ApplyBatch(sensors, map id | id in batch && id in done :: batch[id])
  }

  lemma {:induction false} ApplyStep(sensors: map<Id, Sensor>, batch: Batch, done: set<Id>, id: Id)
    requires id in batch && id !in done
    ensures var now := AppliedSoFar(sensors, batch, done);
            AppliedSoFar(sensors, batch, done + {id})
            == now[id := if id in now then now[id].(state := batch[id]) else Sensor(None, batch[id])]
  {
    var now, next := AppliedSoFar(sensors, batch, done), AppliedSoFar(sensors, batch, done + {id});
    assert id in now <==> id in sensors;
    assert next.Keys == now.Keys + {id};
  }

  lemma {:induction false} ApplyAll(sensors: map<Id, Sensor>, batch: Batch)
    ensures AppliedSoFar(sensors, batch, {}) == sensors
    ensures AppliedSoFar(sensors, batch, batch.Keys) == ApplyBatch(sensors, batch)
  {
    assert (map id | id in batch && id in batch.Keys :: batch[id]) == batch;
  }

  /** The closure of `update`. */
  method EditStates(sensors: map<Id, Sensor>, update: Batch) returns (edited: map<Id, Sensor>)
    ensures edited == ApplyBatch(sensors, update)
  {
    edited := sensors;
    var keys := Sorted(update.Keys);
    ghost var done: set<Id> := {};
    ApplyAll(sensors, update);
    for i := 0 to |keys|
      invariant Progress(keys, i, done)
      invariant edited == AppliedSoFar(sensors, update, done)
    {
      ProgressStep(keys, i, done);
      var id := keys[i];
      ApplyStep(sensors, update, done, id);
      if id in edited {
        edited := edited[id := edited[id].(state := update[id])];
      } else {
        edited := edited[id := Sensor(None, update[id])];
      }
      done := done + {id};
    }
    ProgressEnds(keys, update.Keys, done);
  }

  /** The log transaction of one update: the new logs, or `None` when an append fails and nothing is committed. */
  method LogTransaction(logs: map<Id, Log>, known: set<Id>, update: Batch, ghost db: Shared)
    returns (committed: Option<map<Id, Log>>)
    requires db.logs == logs && db.known == known && known <= logs.Keys
    ensures committed.Some? <==> forall id :: id in update ==> CanLog(db, update, id)
    ensures committed.Some? ==> committed.value == LoggedSoFar(db, update, update.Keys)
    ensures committed.Some? ==> forall id :: id in known && id in update && update[id].Connected? ==>
      id in committed.value && StoresReading(logs[id], committed.value[id], update[id].values)
    ensures committed.Some? ==> forall id :: id in logs && !(id in known && id in update && update[id].Connected?) ==>
      id in committed.value && committed.value[id] == logs[id]
  {
    var txn := logs;
    var keys := Sorted(update.Keys);
    ghost var done: set<Id> := {};
    assert txn == LoggedSoFar(db, update, done);
    for i := 0 to |keys|
      invariant Progress(keys, i, done)
      invariant txn == LoggedSoFar(db, update, done)
      invariant forall id :: id in done ==> CanLog(db, update, id)
    {
      ProgressStep(keys, i, done);
      var id := keys[i];
      LogOne(db, update, done, id);
      if update[id].Connected? {
        var r := LogInto(txn, known, id, update[id].values);
        if r.None? {
          return None;
        }
        txn := r.value;
      }
      done := done + {id};
    }
    ProgressEnds(keys, update.Keys, done);
    LoggedFields(db, update);
    committed := Some(txn);
  }

  lemma {:induction false} LoggedFields(db: Shared, batch: Batch)
    requires db.known <= db.logs.Keys
    ensures var now := LoggedSoFar(db, batch, batch.Keys);
      && (forall id :: id in db.known && id in batch && batch[id].Connected? ==>
            StoresReading(db.logs[id], now[id], batch[id].values))
      && (forall id :: id in db.logs && !(id in db.known && id in batch && batch[id].Connected?) ==>
            now[id] == db.logs[id])
  {
    forall id | id in db.known && id in batch && batch[id].Connected?
      ensures StoresReading(db.logs[id], LoggedSoFar(db, batch, batch.Keys)[id], batch[id].values)
    {
      EntryStores(db.logs[id], batch[id].values);
    }
    forall id | id in db.logs ensures db.logs[id] + [] == db.logs[id] {
    }
  }

  /** The steps of one batch that is taken, and of one whose readings cannot be logged. */
  function Taken(update: Batch): seq<Step> {
    [Receive(update), RegisterIds, LogReadings, EditSensors]
  }

  function Refused(update: Batch): seq<Step> {
    [Receive(update), RegisterIds, LogReadings]
  }

  function AllTaken(updates: seq<Batch>): seq<Step> {
    if updates == [] then [] else AllTaken(updates[..|updates| - 1]) + Taken(updates[|updates| - 1])
  }

  /** The steps of the task that takes the first `done` batches, and is refused the next one if there is one. */
  function TaskSteps(updates: seq<Batch>, done: nat): seq<Step>
    requires done <= |updates|
  {
    AllTaken(updates[..done]) + (if done < |updates| then Refused(updates[done]) else [])
  }

  lemma {:induction false} TakeOne(updates: seq<Batch>, done: nat)
    requires done < |updates|
    ensures AllTaken(updates[..done + 1]) == AllTaken(updates[..done]) + Taken(updates[done])
  {
    assert updates[..done + 1][..done] == updates[..done];
  }

  lemma {:induction false} TookAll(updates: seq<Batch>)
    ensures TaskSteps(updates, |updates|) == AllTaken(updates[..|updates|])
  {
    assert AllTaken(updates[..|updates|]) + [] == AllTaken(updates[..|updates|]);
  }

  /** `done` more broadcasts, the last of them of the map as it is. */
  predicate Heard(was: seq<OverviewResponse>, now: seq<OverviewResponse>, done: nat, sensors: map<Id, Sensor>) {
    && |now| == |was| + done && was <= now
    && (done > 0 ==> now[|now| - 1] == BroadcastOf(sensors))
  }

  lemma {:induction false} HeardOne(was: seq<OverviewResponse>, now: seq<OverviewResponse>, done: nat,
      before: map<Id, Sensor>, sensors: map<Id, Sensor>)
    requires Heard(was, now, done, before)
    ensures Heard(was, now + [BroadcastOf(sensors)], done + 1, sensors)
  {
  }

  class Context {
    var ids: map<Id, Option<Label>>
    var logs: map<Id, Log>
    const known: set<Id>
    var sensors: map<Id, Sensor>
    var broadcasts: seq<OverviewResponse>

    ghost predicate Valid()
      reads this
    {
      known <= logs.Keys
    }

    ghost function Abs(): Shared
      reads this
    {
      Shared(ids, logs, known, sensors)
    }

    constructor (ids: map<Id, Option<Label>>, logs: map<Id, Log>, sensors: map<Id, Sensor>)
      requires ids.Keys <= logs.Keys
      ensures Valid() && Abs() == Shared(ids, logs, ids.Keys, sensors) && broadcasts == []
    {
      this.ids, this.logs, known, this.sensors, broadcasts := ids, logs, ids.Keys, sensors, [];
    }

    /** `Context::create` over `Db::open`; `None` when the database does not open. */
    static method Create(storedIds: map<Id, Option<Label>>, storedLogs: map<Id, Log>) returns (r: Option<Context>)
      ensures r.Some? <==> CanOpen(storedIds)
      ensures r.Some? ==> fresh(r.value) && r.value.Valid() && r.value.broadcasts == []
      ensures r.Some? ==> r.value.Abs() == Open(storedIds, storedLogs)
    {
      var sensorLog := OpenLogs(storedIds.Keys, storedLogs);
      assert |storedIds| == |storedIds.Keys|;
      if sensorLog.None? {
        return None;
      }
      var filled := FillSensors(storedIds);
      assert storedIds.Keys <= sensorLog.value.Keys;
      var ctx := new Context(storedIds, sensorLog.value, filled);
      r := Some(ctx);
    }

    // ----- update -----

    /** The read transaction of `update`. */
    method FindNew(update: Batch) returns (newSensors: seq<Id>)
      ensures (set id | id in newSensors) == update.Keys - ids.Keys
    {
      newSensors := [];
      var keys := Sorted(update.Keys);
      for i := 0 to |keys|
        invariant forall id :: id in newSensors <==> id in keys[..i] && id !in ids
      {
        assert keys[..i + 1] == keys[..i] + [keys[i]];
        if keys[i] !in ids {
          newSensors := newSensors + [keys[i]];
        }
      }
      assert keys[..|keys|] == keys;
    }

    /** Its write transaction. */
    method RegisterNew(newSensors: seq<Id>)
      modifies this`ids
      ensures ids == PutNew(old(ids), set id | id in newSensors)
    {
      var txn := ids;
      for i := 0 to |newSensors|
        invariant txn == PutNew(ids, set id | id in newSensors[..i])
      {
        assert newSensors[..i + 1] == newSensors[..i] + [newSensors[i]];
        txn := txn[newSensors[i] := None];
      }
      assert newSensors[..|newSensors|] == newSensors;
      ids := txn;
    }

    /** Its log transaction: nothing is stored when one reading cannot be appended. */
    method LogReadings(update: Batch) returns (ok: bool)
      requires Valid()
      modifies this`logs
      ensures Valid() && ok == LogAll(old(Abs()), update).Some?
      ensures Abs() == if ok then LogAll(old(Abs()), update).value else old(Abs())
      ensures ok ==> forall id :: id in known && id in update && update[id].Connected? ==>
        StoresReading(old(logs)[id], logs[id], update[id].values)
    {
      var txn := LogTransaction(logs, known, update, Abs());
      ok := txn.Some?;
      if ok {
        LoggedAll(Abs(), update);
        logs := txn.value;
      }
    }

    /** `modify_sensors` with the closure of `update`. */
    method ApplyUpdate(update: Batch)
      modifies this`sensors, this`broadcasts
      ensures sensors == ApplyBatch(old(sensors), update)
      ensures broadcasts == old(broadcasts) + [BroadcastOf(sensors)]
    {
      sensors := EditStates(sensors, update);
      var response := CreateOverviewResponse();
      broadcasts := broadcasts + [response];
    }

    /** The first half of one update. */
    method CheckAndRegister(update: Batch, ghost start: System, ghost before: seq<Step>)
      requires Exec(start, before) == Some(System(Abs(), Idle, map[]))
      modifies this`ids
      ensures Exec(start, before + [Receive(update), Step.RegisterIds])
              == Some(System(Abs(), Registered(update), map[]))
      ensures ids == PutNew(old(ids), update.Keys - old(ids).Keys)
    {
      ghost var was := Abs();
      ghost var unseen := update.Keys - ids.Keys;
      ExecSnoc(start, before, Receive(update));
      ExecSnoc(start, before + [Receive(update)], Step.RegisterIds);
      assert before + [Receive(update)] + [Step.RegisterIds] == before + [Receive(update), Step.RegisterIds];
      var newSensors := FindNew(update);
      if newSensors != [] {
        assert newSensors[0] in unseen;
        RegisterNew(newSensors);
        assert Abs() == was.(ids := PutNew(was.ids, unseen));
      } else {
        assert unseen == {};
        assert PutNew(was.ids, unseen) == was.ids;
      }
    }

    /** One batch: four steps, or three when its readings cannot be logged. */
    method UpdateOnce(update: Batch, ghost start: System, ghost before: seq<Step>) returns (ok: bool)
      requires Valid() && Exec(start, before) == Some(System(Abs(), Idle, map[]))
      modifies this`ids, this`logs, this`sensors, this`broadcasts
      ensures Valid()
      ensures Exec(start, before + (if ok then Taken(update) else Refused(update)))
              == Some(System(Abs(), if ok then Idle else Failed, map[]))
      ensures broadcasts == old(broadcasts) + (if ok then [BroadcastOf(sensors)] else [])
      ensures !ok ==> sensors == old(sensors)
    {
      CheckAndRegister(update, start, before);
      ghost var half := before + [Receive(update), Step.RegisterIds];
      ExecSnoc(start, half, Step.LogReadings);
      ok := LogReadings(update);
      assert half + [Step.LogReadings] == before + Refused(update);
      if ok {
        ExecSnoc(start, before + Refused(update), Step.EditSensors);
        ApplyUpdate(update);
        assert before + Refused(update) + [Step.EditSensors] == before + Taken(update);
      }
    }

    /** The whole task, when nothing else gets in between: it takes the batches one after the other, `done` of them,
        and broadcasts after each. It stops early only at a batch whose readings cannot be logged. */
    method Update(updates: seq<Batch>) returns (ok: bool, done: nat)
      requires Valid()
      modifies this`ids, this`logs, this`sensors, this`broadcasts
      ensures Valid()
      ensures done <= |updates| && (ok <==> done == |updates|)
      ensures Exec(System(old(Abs()), Idle, map[]), TaskSteps(updates, done))
              == Some(System(Abs(), if ok then Idle else Failed, map[]))
      ensures Heard(old(broadcasts), broadcasts, done, sensors)
    {
      ghost var start := System(Abs(), Idle, map[]);
      done := 0;
      while done < |updates|
        invariant Valid() && done <= |updates|
        invariant Exec(start, AllTaken(updates[..done])) == Some(System(Abs(), Idle, map[]))
        invariant Heard(old(broadcasts), broadcasts, done, sensors)
      {
        ghost var heard, map0 := broadcasts, sensors;
        ok := UpdateOnce(updates[done], start, AllTaken(updates[..done]));
        if !ok {
          assert heard + [] == heard;
          return;
        }
        TakeOne(updates, done);
        HeardOne(old(broadcasts), heard, done, map0, sensors);
        done := done + 1;
      }
      ok := true;
      TookAll(updates);
    }

    // ----- change_label -----

    /** The whole call, when nothing else gets in between. */
    method ChangeLabel(id: Id, name: Option<Label>) returns (found: bool)
      modifies this
      ensures found == (id in old(ids))
      ensures Exec(System(old(Abs()), Idle, map[]),
                   if found then [Check(0, id, name), Commit(0), Step.EditLabel(0)] else [Check(0, id, name)])
              == Some(System(Abs(), Idle, map[]))
      ensures broadcasts == old(broadcasts) + (if found then [BroadcastOf(sensors)] else [])
      ensures found ==> id in ids && ids[id] == name && (id in sensors ==> sensors[id].name == name)
      ensures forall i :: i in old(ids) && i != id ==> i in ids && ids[i] == old(ids)[i]
    {
      ghost var s0 := System(Abs(), Idle, map[]);
      if id !in ids {
        ExecOne(s0, Check(0, id, name));
        return false;
      }
      ghost var s1 := Next(s0, Check(0, id, name)).value;
      ids := ids[id := name];
      ghost var s2 := Next(s1, Commit(0)).value;
      assert s2.db == Abs();
      EditLabel(id, name);
      ghost var s3 := System(Abs(), Idle, map[]);
      assert Next(s2, Step.EditLabel(0)) == Some(s3) by {
        assert s2.handlers - {0} == map[];
      }
      ThreeSteps(s0, Check(0, id, name), s1, Commit(0), s2, Step.EditLabel(0), s3);
      found := true;
    }

    /** `modify_sensors` with the closure of `change_label`. */
    method EditLabel(id: Id, name: Option<Label>)
      modifies this`sensors, this`broadcasts
      ensures sensors == SetLabel(old(sensors), id, name)
      ensures broadcasts == old(broadcasts) + [BroadcastOf(sensors)]
    {
      if id in sensors {
        sensors := sensors[id := sensors[id].(name := name)];
      }
      var response := CreateOverviewResponse();
      broadcasts := broadcasts + [response];
    }

    // ----- overviews -----

    method CreateOverviewResponse() returns (overview: OverviewResponse)
      ensures overview == BroadcastOf(sensors)
      ensures ShowsSensors(overview, sensors) && ShowsOwnLabels(overview, sensors)
    {
      overview := [];
      var keys := Sorted(sensors.Keys);
      for i := 0 to |keys|
        invariant overview == BroadcastOf(sensors)[..i]
      {
        assert keys[i] in keys;
        overview := overview + [Field(keys[i], sensors[keys[i]].name, Shown(sensors[keys[i]].state))];
      }
      BroadcastShows(sensors);
    }

    method Overview() returns (overview: OverviewResponse)
      ensures overview == OverviewOf(Abs())
      ensures ShowsSensors(overview, sensors) && ShowsStoredLabels(overview, ids)
    {
      overview := [];
      var keys := Sorted(sensors.Keys);
      for i := 0 to |keys|
        invariant overview == OverviewOf(Abs())[..i]
      {
        var id := keys[i];
        assert id in keys;
        var name := if id in ids then ids[id] else None;
        overview := overview + [Field(id, name, Shown(sensors[id].state))];
      }
      OverviewShows(Abs());
    }
  }
}
