/** One round of collecting sensor readings (src/mesh/mod.rs:222-263, 695-707). */
module Batches {
  import opened Common
  import BitValues
  import opened Proto
  import opened Messages
  import opened SensorLogs
  import opened SortedKeys
  import opened Store

  /** The ranges of the temperature and humidity types, which the program takes from a library. */
  datatype Limits = Limits(celsius: i16 -> bool, humidity: Humidity -> bool)

  function Signed(b: bv16): i16 {
    if b < 0x8000 then b as int else b as int - 0x1_0000
  }

  /** `convert_msg_to_values`. */
  function Convert(limits: Limits, m: GenericMessage): Option<SensorValues> {
    match ParseSensorValues(m.content.payload)
    case None => None
    case Some(v) =>
      var t, h := Signed(v.temperature), v.humidity as int;
      if limits.celsius(t) && limits.humidity(h) then Some(SensorValues(m.received, t, h, v.pressure as int))
      else None
  }

  /** What a message says, octet by octet: temperature in two's complement, humidity and pressure, low octets first,
      with temperature and humidity in their ranges. */
  predicate Says(limits: Limits, m: GenericMessage, v: SensorValues) {
    var b := m.content.payload;
    && |b| == 8
    && SaysNumbers(limits, m.received, Number16(b, 0), Number16(b, 2), Number16(b, 4) + 0x1_0000 * Number16(b, 6), v)
  }

  predicate SaysNumbers(limits: Limits, received: u32, n: nat, h: nat, p: nat, v: SensorValues) {
    && v.timestamp == received
    && (v.temperature - n) % 0x1_0000 == 0 && limits.celsius(v.temperature)
    && v.humidity == h && limits.humidity(v.humidity)
    && v.pressure == p
  }

  /** Conversion gives exactly what the message says, if it says something valid. */
  lemma {:induction false} ConvertIff(limits: Limits, m: GenericMessage, v: SensorValues)
    ensures Convert(limits, m) == Some(v) <==> Says(limits, m, v)
  {
    var b := m.content.payload;
    if |b| == 8 {
      var n, h, p := Number16(b, 0), Number16(b, 2), Number16(b, 4) + 0x1_0000 * Number16(b, 6);
      ConvertNumbers(limits, m, n, h, p);
      ReadingIff(limits, m.received, n, h, p, v);
    } else {
      SensorNumbers(b);
    }
  }

  /** The reading made of three numbers, if they are in range. */
  function ReadingOf(limits: Limits, received: u32, n: nat, h: Humidity, p: u32): Option<SensorValues>
    requires n < 0x1_0000
  {
    var t: i16 := if n < 0x8000 then n else n - 0x1_0000;
    if limits.celsius(t) && limits.humidity(h) then Some(SensorValues(received, t, h, p)) else None
  }

  lemma {:induction false} ReadingIff(limits: Limits, received: u32, n: nat, h: Humidity, p: u32, v: SensorValues)
    requires n < 0x1_0000
    ensures ReadingOf(limits, received, n, h, p) == Some(v) <==> SaysNumbers(limits, received, n, h, p, v)
  {
    Congruent(v.temperature, n);
  }

  lemma {:induction false} ConvertNumbers(limits: Limits, m: GenericMessage, n: nat, h: nat, p: nat)
    requires |m.content.payload| == 8
    requires n == Number16(m.content.payload, 0) && h == Number16(m.content.payload, 2)
    requires p == Number16(m.content.payload, 4) + 0x1_0000 * Number16(m.content.payload, 6)
    ensures n < 0x1_0000 && h <= 0xFFFF && p <= U32_MAX
    ensures Convert(limits, m) == ReadingOf(limits, m.received, n, h, p)
  {
    var b := m.content.payload;
    SensorNumbers(b);
    NumberRange(b, 0);
    NumberRange(b, 2);
    NumberRange(b, 4);
    NumberRange(b, 6);
    ConvertParsed(limits, m, ParseSensorValues(b).value, n, h, p);
  }

  lemma {:induction false} ConvertParsed(limits: Limits, m: GenericMessage, v: SensorPayload, n: nat, h: Humidity,
      p: u32)
    requires ParseSensorValues(m.content.payload) == Some(v)
    requires n < 0x1_0000 && v.temperature as int == n && v.humidity as int == h && v.pressure as int == p
    ensures Convert(limits, m) == ReadingOf(limits, m.received, n, h, p)
  {
    SignedIs(v.temperature, n);
  }

  lemma {:induction false} SignedIs(b: bv16, n: nat)
    requires b as int == n
    ensures n < 0x1_0000 && Signed(b) == if n < 0x8000 then n else n - 0x1_0000
  {
    BitValues.Range16(b);
  }

  lemma {:induction false} NumberRange(b: Bytes, i: nat)
    requires i + 2 <= |b|
    ensures Number16(b, i) < 0x1_0000
  {
    BitValues.Range8(b[i]);
    BitValues.Range8(b[i + 1]);
  }

  lemma {:induction false} Congruent(t: i16, n: nat)
    requires n < 0x1_0000
    ensures (t - n) % 0x1_0000 == 0 <==> t == if n < 0x8000 then n else n - 0x1_0000
  {
  }

  ghost predicate SaysNothing(limits: Limits, m: GenericMessage) {
    forall v :: !Says(limits, m, v)
  }

  /** The last valid reading of a sensor. */
  function LastReading(limits: Limits, connected: map<u16, Id>, inbox: seq<GenericMessage>, id: Id)
    : Option<SensorValues>
  {
    if inbox == [] then None
    else
      var m := inbox[|inbox| - 1];
      if m.sourceAddr in connected && connected[m.sourceAddr] == id && Convert(limits, m).Some? then Convert(limits, m)
      else LastReading(limits, connected, inbox[..|inbox| - 1], id)
  }

  predicate IsFrom(connected: map<u16, Id>, m: GenericMessage, id: Id) {
    m.sourceAddr in connected && connected[m.sourceAddr] == id
  }

  /** `v` is what the last valid message of the sensor says. */
  ghost predicate LastSays(limits: Limits, connected: map<u16, Id>, inbox: seq<GenericMessage>, id: Id,
      v: SensorValues)
  {
    exists i :: 0 <= i < |inbox| && IsFrom(connected, inbox[i], id) && Says(limits, inbox[i], v)
                && NothingAfter(limits, connected, inbox, id, i + 1)
  }

  /** From message `i` on the sensor says nothing valid. */
  ghost predicate NothingAfter(limits: Limits, connected: map<u16, Id>, inbox: seq<GenericMessage>, id: Id, i: nat) {
    forall k :: i <= k < |inbox| && IsFrom(connected, inbox[k], id) ==> SaysNothing(limits, inbox[k])
  }

  lemma {:induction false} LastReadingNoneIff(limits: Limits, connected: map<u16, Id>, inbox: seq<GenericMessage>,
      id: Id)
    ensures LastReading(limits, connected, inbox, id).None? <==> NothingAfter(limits, connected, inbox, id, 0)
  {
    if inbox != [] {
      var n := |inbox| - 1;
      LastReadingNoneIff(limits, connected, inbox[..n], id);
      InvalidIff(limits, inbox[n]);
      assert forall k :: 0 <= k < n ==> inbox[..n][k] == inbox[k];
    }
  }

  lemma {:induction false} InvalidIff(limits: Limits, m: GenericMessage)
    ensures Convert(limits, m).None? <==> SaysNothing(limits, m)
  {
    forall v ensures Convert(limits, m) == Some(v) <==> Says(limits, m, v) {
      ConvertIff(limits, m, v);
    }
    if Convert(limits, m).Some? {
      assert Says(limits, m, Convert(limits, m).value);
    }
  }

  lemma {:induction false} LastReadingIs(limits: Limits, connected: map<u16, Id>, inbox: seq<GenericMessage>, id: Id)
    requires LastReading(limits, connected, inbox, id).Some?
    ensures LastSays(limits, connected, inbox, id, LastReading(limits, connected, inbox, id).value)
  {
    var n := |inbox| - 1;
    var m := inbox[n];
    var v := LastReading(limits, connected, inbox, id).value;
    if IsFrom(connected, m, id) && Convert(limits, m).Some? {
      ConvertIff(limits, m, v);
      assert NothingAfter(limits, connected, inbox, id, n + 1);
    } else {
      LastReadingIs(limits, connected, inbox[..n], id);
      InvalidIff(limits, m);
      StillLast(limits, connected, inbox, id, v);
    }
  }

  lemma {:induction false} StillLast(limits: Limits, connected: map<u16, Id>, inbox: seq<GenericMessage>, id: Id,
      v: SensorValues)
    requires inbox != [] && LastSays(limits, connected, inbox[..|inbox| - 1], id, v)
    requires IsFrom(connected, inbox[|inbox| - 1], id) ==> SaysNothing(limits, inbox[|inbox| - 1])
    ensures LastSays(limits, connected, inbox, id, v)
  {
    var front := inbox[..|inbox| - 1];
    var i :| 0 <= i < |front| && IsFrom(connected, front[i], id) && Says(limits, front[i], v)
             && NothingAfter(limits, connected, front, id, i + 1);
    assert front[i] == inbox[i];
    assert NothingAfter(limits, connected, inbox, id, i + 1) by {
      assert forall k :: 0 <= k < |front| ==> front[k] == inbox[k];
    }
  }

  /** The state of a sensor after a round, by the octets of its messages. */
  ghost predicate IsHeardAs(limits: Limits, connected: map<u16, Id>, inbox: seq<GenericMessage>, id: Id,
      st: SensorState)
  {
    match st
    case Connected(v) => LastSays(limits, connected, inbox, id, v)
    case Unconnected => NothingAfter(limits, connected, inbox, id, 0)
  }

  lemma {:induction false} StateIsHeard(limits: Limits, connected: map<u16, Id>, inbox: seq<GenericMessage>, id: Id)
    ensures IsHeardAs(limits, connected, inbox, id, StateOf(limits, connected, inbox, id))
  {
    LastReadingNoneIff(limits, connected, inbox, id);
    if LastReading(limits, connected, inbox, id).Some? {
      LastReadingIs(limits, connected, inbox, id);
    }
  }

  lemma {:induction false} StatesAreHeard(limits: Limits, connected: map<u16, Id>, inbox: seq<GenericMessage>,
      batch: Batch)
    requires forall id :: id in batch ==> batch[id] == StateOf(limits, connected, inbox, id)
    ensures forall id :: id in batch ==> IsHeardAs(limits, connected, inbox, id, batch[id])
  {
    forall id | id in batch ensures IsHeardAs(limits, connected, inbox, id, batch[id]) {
      StateIsHeard(limits, connected, inbox, id);
    }
  }

  function ConnectedIds(connected: map<u16, Id>): set<Id> {
    set addr | addr in connected :: connected[addr]
  }

  ghost predicate AllHeard(limits: Limits, connected: map<u16, Id>, inbox: seq<GenericMessage>) {
    forall id :: id in ConnectedIds(connected) ==> LastReading(limits, connected, inbox, id).Some?
  }

  ghost predicate FromConnected(connected: map<u16, Id>, inbox: seq<GenericMessage>) {
    forall i :: 0 <= i < |inbox| ==> inbox[i].sourceAddr in connected
  }

  function StateOf(limits: Limits, connected: map<u16, Id>, inbox: seq<GenericMessage>, id: Id): SensorState {
    match LastReading(limits, connected, inbox, id)
    case Some(v) => Connected(v)
    case None => Unconnected
  }

  /** The sensors that were not heard are reported as unconnected, unless the batch has them. */
  method AddUnheard(heard: Batch, timedout: set<Id>) returns (batch: Batch)
    ensures batch.Keys == heard.Keys + timedout
    ensures forall id :: id in batch ==> batch[id] == if id in heard then heard[id] else Unconnected
  {
    batch := heard;
    var left := timedout;
    while left != {}
      invariant left <= timedout && heard.Keys <= batch.Keys && batch.Keys + left == heard.Keys + timedout
      invariant forall id :: id in batch ==> batch[id] == if id in heard then heard[id] else Unconnected
      decreases left
    {
      var id := Least(left);
      if id !in batch {
        batch := batch[id := Unconnected];
      }
      left := left - {id};
    }
  }

  /** The readings so far and the ids not yet heard: disjoint, and together the connected ids. */
  ghost predicate Collecting(limits: Limits, connected: map<u16, Id>, inbox: seq<GenericMessage>, readings: Batch,
      timedout: set<Id>)
  {
    && readings.Keys !! timedout
    && readings.Keys + timedout == ConnectedIds(connected)
    && (forall id :: id in readings ==>
          LastReading(limits, connected, inbox, id).Some? && readings[id] == StateOf(limits, connected, inbox, id))
    && (forall id :: id in timedout ==> LastReading(limits, connected, inbox, id).None?)
  }

  lemma {:induction false} CollectOne(limits: Limits, connected: map<u16, Id>, inbox: seq<GenericMessage>,
      m: GenericMessage, readings: Batch, timedout: set<Id>)
    requires Collecting(limits, connected, inbox, readings, timedout) && m.sourceAddr in connected
    ensures var id := connected[m.sourceAddr];
      match Convert(limits, m)
      case Some(v) => Collecting(limits, connected, inbox + [m], readings[id := Connected(v)], timedout - {id})
      case None => Collecting(limits, connected, inbox + [m], readings, timedout)
  {
    assert (inbox + [m])[..|inbox|] == inbox;
    assert connected[m.sourceAddr] in ConnectedIds(connected);
  }

  lemma {:induction false} HeardIff(limits: Limits, connected: map<u16, Id>, inbox: seq<GenericMessage>,
      readings: Batch, timedout: set<Id>)
    requires Collecting(limits, connected, inbox, readings, timedout)
    ensures AllHeard(limits, connected, inbox) <==> timedout == {}
  {
    if timedout != {} {
      var t :| t in timedout;
      assert t in ConnectedIds(connected);
    }
  }

  /** One batch. `inbox` is what the stream yields until the timer fires; `used` is how much of it the round took:
      everything, or just enough to have heard every sensor. The round panics exactly at a message from an address
      that is not connected. */
  method Collect(limits: Limits, connected: map<u16, Id>, inbox: seq<GenericMessage>)
      returns (batch: Option<Batch>, used: nat)
    ensures used <= |inbox| && FromConnected(connected, inbox[..used])
    ensures forall k :: 0 < k < used ==> !AllHeard(limits, connected, inbox[..k])
    ensures batch.None? <==> used < |inbox| && inbox[used].sourceAddr !in connected
                             && (used > 0 ==> !AllHeard(limits, connected, inbox[..used]))
    ensures batch.Some? && used < |inbox| ==> used > 0 && AllHeard(limits, connected, inbox[..used])
    ensures batch.Some? ==> batch.value.Keys == ConnectedIds(connected)
    ensures batch.Some? ==> forall id :: id in ConnectedIds(connected) ==>
      batch.value[id] == StateOf(limits, connected, inbox[..used], id)
    ensures batch.Some? ==> forall id :: id in batch.value ==>
      IsHeardAs(limits, connected, inbox[..used], id, batch.value[id])
  {
    var readings: Batch := map[];
    var timedout := ConnectedIds(connected);
    used := 0;
    var complete := false;
    while used < |inbox| && !complete
      invariant used <= |inbox| && FromConnected(connected, inbox[..used])
      invariant Collecting(limits, connected, inbox[..used], readings, timedout)
      invariant complete ==> used > 0 && AllHeard(limits, connected, inbox[..used])
      invariant forall k :: 0 < k <= used && (complete ==> k < used) ==> !AllHeard(limits, connected, inbox[..k])
      decreases |inbox| - used, !complete
    {
      var msg := inbox[used];
      if msg.sourceAddr !in connected {
        return None, used;
      }
      assert inbox[..used + 1] == inbox[..used] + [msg];
      CollectOne(limits, connected, inbox[..used], msg, readings, timedout);
      HeardIff(limits, connected, inbox[..used], readings, timedout);
      assert connected[msg.sourceAddr] in ConnectedIds(connected);
      var id := connected[msg.sourceAddr];
      var values := Convert(limits, msg);
      used := used + 1;
      if values.Some? {
        timedout := timedout - {id};
        readings := readings[id := Connected(values.value)];
        complete := timedout == {};
      }
      HeardIff(limits, connected, inbox[..used], readings, timedout);
    }
    readings := AddUnheard(readings, timedout);
    StatesAreHeard(limits, connected, inbox[..used], readings);
    batch := Some(readings);
  }

  /** The steps between the arrival of a batch and its map edit: the other two of the update task, and any of any
      number of `change_label` calls. */
  predicate Amid(steps: seq<Step>) {
    forall i :: 0 <= i < |steps| ==> !steps[i].EditSensors? && !steps[i].Restart?
  }

  /** What such steps have done so far to the logs and to the states in the map. */
  ghost predicate OnTheWay(s: System, batch: Batch, t: System) {
    && t.db.known == s.db.known && t.db.sensors.Keys == s.db.sensors.Keys
    && (forall id :: id in s.db.sensors ==> t.db.sensors[id].state == s.db.sensors[id].state)
    && match t.task
       case Idle => false
       case Checked(b, _) => b == batch && t.db.logs == s.db.logs
       case Registered(b) => b == batch && t.db.logs == s.db.logs
       case Logged(b) => b == batch && LogAll(s.db, batch).Some? && t.db.logs == LogAll(s.db, batch).value.logs
       case Failed => true
  }

  lemma {:induction false} OneStepOn(s: System, batch: Batch, t: System, step: Step)
    requires OnTheWay(s, batch, t) && Next(t, step).Some? && !step.EditSensors? && !step.Restart?
    ensures OnTheWay(s, batch, Next(t, step).value)
  {
    if step.LogReadings? {
      LogAllOf(s.db, t.db, batch);
    }
  }

  lemma {:induction false} LogAllOf(a: Shared, b: Shared, batch: Batch)
    requires a.logs == b.logs && a.known == b.known
    ensures LogAll(a, batch).Some? <==> LogAll(b, batch).Some?
    ensures LogAll(a, batch).Some? ==> LogAll(a, batch).value.logs == LogAll(b, batch).value.logs
  {
    assert forall id :: CanLog(a, batch, id) <==> CanLog(b, batch, id);
  }

  lemma {:induction false} RoundIsOnTheWay(s: System, batch: Batch, steps: seq<Step>)
    requires s.task == Idle && Amid(steps) && Exec(s, [Receive(batch)] + steps).Some?
    ensures OnTheWay(s, batch, Exec(s, [Receive(batch)] + steps).value)
  {
    if steps == [] {
      ExecOne(s, Receive(batch));
      assert [Receive(batch)] + steps == [Receive(batch)];
    } else {
      var front, last := steps[..|steps| - 1], steps[|steps| - 1];
      assert [Receive(batch)] + steps == ([Receive(batch)] + front) + [last];
      ExecSnoc(s, [Receive(batch)] + front, last);
      RoundIsOnTheWay(s, batch, front);
      OneStepOn(s, batch, Exec(s, [Receive(batch)] + front).value, last);
    }
  }

  /** Once the update has taken the batch, however its steps and those of `change_label` calls were interleaved:
      every connected sensor shows its last valid reading of the round or nothing, the other sensors are as before,
      and every open log has got exactly those readings. */
  lemma {:induction false} UpdateTakesBatch(limits: Limits, connected: map<u16, Id>, inbox: seq<GenericMessage>,
      s: System, batch: Batch, steps: seq<Step>)
    requires batch.Keys == ConnectedIds(connected)
    requires forall id :: id in batch ==> batch[id] == StateOf(limits, connected, inbox, id)
    requires s.task == Idle && s.db.known <= s.db.logs.Keys
    requires Amid(steps) && Exec(s, [Receive(batch)] + steps + [EditSensors]).Some?
    ensures var db := Exec(s, [Receive(batch)] + steps + [EditSensors]).value.db;
      && db.sensors.Keys == s.db.sensors.Keys + ConnectedIds(connected)
      && (forall id :: id in db.sensors ==>
            db.sensors[id].state ==
            if id in ConnectedIds(connected) then StateOf(limits, connected, inbox, id) else s.db.sensors[id].state)
      && db.known == s.db.known
      && (forall id :: id in db.known ==>
            id in s.db.logs && id in db.logs && db.logs[id] == s.db.logs[id] +
              (if id in ConnectedIds(connected) && LastReading(limits, connected, inbox, id).Some?
               then [ToEntry(LastReading(limits, connected, inbox, id).value)] else []))
  {
    ExecSnoc(s, [Receive(batch)] + steps, EditSensors);
    RoundIsOnTheWay(s, batch, steps);
    var t := Exec(s, [Receive(batch)] + steps).value;
    assert t.task == Logged(batch);
    var logged := LogAll(s.db, batch).value;
    forall id | id in s.db.known ensures id in logged.logs && logged.logs[id] == s.db.logs[id] + Reading(batch, id) {
    }
  }

  /** Field by field: once a batch is taken, the open log of a sensor with a reading is the former one and that
      reading, and any answer about a range the reading lies in ends with it; other open logs are as before. */
  lemma {:induction false} TakenReadingIsStored(s: System, batch: Batch, steps: seq<Step>, id: Id)
    requires s.task == Idle && s.db.known <= s.db.logs.Keys && id in s.db.known
    requires Amid(steps) && Exec(s, [Receive(batch)] + steps + [EditSensors]).Some?
    ensures var db := Exec(s, [Receive(batch)] + steps + [EditSensors]).value.db;
      && id in db.known && id in db.logs
      && if id in batch && batch[id].Connected? then StoresReading(s.db.logs[id], db.logs[id], batch[id].values)
         else db.logs[id] == s.db.logs[id]
  {
    ExecSnoc(s, [Receive(batch)] + steps, EditSensors);
    RoundIsOnTheWay(s, batch, steps);
    var t := Exec(s, [Receive(batch)] + steps).value;
    assert t.task == Logged(batch);
    if id in batch && batch[id].Connected? {
      EntryStores(s.db.logs[id], batch[id].values);
    } else {
      assert s.db.logs[id] + [] == s.db.logs[id];
    }
  }

  lemma {:induction false} TakenReadingIsAnswered(s: System, batch: Batch, steps: seq<Step>, id: Id,
      r: SensorDataResponse, start: u32, end: u32)
    requires s.task == Idle && s.db.known <= s.db.logs.Keys && id in s.db.known
    requires Amid(steps) && Exec(s, [Receive(batch)] + steps + [EditSensors]).Some?
    requires id in batch && batch[id].Connected? && start <= batch[id].values.timestamp < end
    requires var logs := Exec(s, [Receive(batch)] + steps + [EditSensors]).value.db.logs;
             id in logs && Answers(r, logs[id], start, end)
    ensures var v, n := batch[id].values, |r.time| - 1;
      && |r.time| == |r.temperature| == |r.humidity| == |r.pressure| > 0
      && r.time[n] == v.timestamp && r.temperature[n] == v.temperature
      && r.humidity[n] == v.humidity && r.pressure[n] == v.pressure
  {
    TakenReadingIsStored(s, batch, steps, id);
    var logs := Exec(s, [Receive(batch)] + steps + [EditSensors]).value.db.logs;
    StoredIsAnswered(s.db.logs[id], logs[id], batch[id].values, r, start, end);
  }

  /** The update takes the batch exactly when every reading for an open log can be appended. */
  lemma {:induction false} BatchIsTakenIff(s: System, batch: Batch)
    requires s.task == Idle
    ensures Exec(s, [Receive(batch), RegisterIds, LogReadings, EditSensors]).Some?
            <==> forall id :: id in batch ==> CanLog(s.db, batch, id)
  {
    var s1 := Next(s, Receive(batch)).value;
    var s2 := Next(s1, RegisterIds).value;
    var s3 := Next(s2, LogReadings).value;
    ThreeSteps(s, Receive(batch), s1, RegisterIds, s2, LogReadings, s3);
    ExecSnoc(s, [Receive(batch), RegisterIds, LogReadings], EditSensors);
    assert [Receive(batch), RegisterIds, LogReadings] + [EditSensors]
      == [Receive(batch), RegisterIds, LogReadings, EditSensors];
    LogAllOf(s.db, s2.db, batch);
  }
}
