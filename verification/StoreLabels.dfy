/** When the labels in memory are the stored ones, and which steps can break that for good. */
module StoreLabels {
  import opened Common
  import opened SensorLogs
  import opened Store
  import opened StoreSafety

  ghost predicate InFlight(s: System, id: Id) {
    exists h :: h in s.handlers && s.handlers[h].id == id
  }

  /** The sensor is in the map, or will be unless the update task fails of a database error. */
  predicate Shows(s: System, id: Id) {
    || id in s.db.sensors
    || s.task.Logged?
    || (s.task.Registered? && LogAll(s.db, s.task.batch).Some?)
  }

  /** The label in memory; a sensor that comes into the map has none. */
  function LabelInMemory(s: System, id: Id): Option<Label> {
    if id in s.db.sensors then s.db.sensors[id].name else None
  }

  /** The steps that can leave memory and database with different labels: a `change_label` call for another label
      than a call that is still on its way, or for a label at all before its sensor has reached the map; and the end
      of a call that has written its label, when the map has another one and no other call will bring it. */
  ghost predicate Risky(s: System, step: Step) {
    match step
    case Check(h, id, name) =>
      && id in s.db.ids && Shows(s, id)
      && ((id !in s.db.sensors && name != None)
          || exists g :: g in s.handlers && s.handlers[g].id == id && s.handlers[g].name != name)
    case Abandon(h) =>
      && h in s.handlers && s.handlers[h].Written? && s.handlers[h].id in s.db.ids
      && Shows(s, s.handlers[h].id) && LabelInMemory(s, s.handlers[h].id) != s.db.ids[s.handlers[h].id]
      && forall g :: g in s.handlers && g != h && s.handlers[g].id == s.handlers[h].id ==> s.handlers[g].Found?
    case _ => false
  }

  /** No step of the run is a bad one where it is taken. */
  ghost predicate Free(bad: (System, Step) -> bool, start: System, steps: seq<Step>) {
    steps == [] ||
    var front := steps[..|steps| - 1];
    && Free(bad, start, front)
    && (Exec(start, front).Some? ==> !bad(Exec(start, front).value, steps[|steps| - 1]))
  }

  ghost predicate Careful(start: System, steps: seq<Step>) {
    Free(Risky, start, steps)
  }

  // ----- what careful runs keep -----

  /** The stored label of `id` is still on its way to the map. */
  ghost predicate OnItsWay(s: System, id: Id)
    requires id in s.db.ids
  {
    exists h :: h in s.handlers && s.handlers[h] == Written(id, s.db.ids[id])
  }

  ghost predicate LabelFits(s: System, id: Id)
    requires id in s.db.ids
  {
    Shows(s, id) ==> LabelInMemory(s, id) == s.db.ids[id] || OnItsWay(s, id)
  }

  /** A call has written what is stored, and has no label for a sensor that is not yet in the map. */
  predicate CallFits(s: System, h: HandlerId)
    requires h in s.handlers
  {
    var id := s.handlers[h].id;
    id in s.db.ids && Shows(s, id) ==>
      && (s.handlers[h].Written? ==> s.handlers[h].name == s.db.ids[id])
      && (id !in s.db.sensors ==> s.handlers[h].name == None)
  }

  predicate SameLabel(s: System, g: HandlerId, h: HandlerId)
    requires g in s.handlers && h in s.handlers
  {
    s.handlers[g].id == s.handlers[h].id && Shows(s, s.handlers[g].id) ==> s.handlers[g].name == s.handlers[h].name
  }

  /** Calls for one sensor want the same label, and labels are equal unless a written one is still on its way. */
  ghost predicate LabelsFit(s: System) {
    && (forall g, h :: g in s.handlers && h in s.handlers ==> SameLabel(s, g, h))
    && (forall h :: h in s.handlers ==> CallFits(s, h))
    && (forall id :: id in s.db.ids ==> LabelFits(s, id))
  }

  lemma {:induction false} StillOnItsWay(s: System, s': System, id: Id, gone: HandlerId)
    requires id in s.db.ids && id in s'.db.ids && s.db.ids[id] == s'.db.ids[id]
    requires forall h :: h in s.handlers && h != gone ==> h in s'.handlers && s'.handlers[h] == s.handlers[h]
    requires gone in s.handlers ==> s.handlers[gone] != Written(id, s.db.ids[id])
    ensures OnItsWay(s, id) ==> OnItsWay(s', id)
  {
    if OnItsWay(s, id) {
      var g :| g in s.handlers && s.handlers[g] == Written(id, s.db.ids[id]);
      assert s'.handlers[g] == Written(id, s'.db.ids[id]);
    }
  }

  lemma {:induction false} CarefulCheck(s: System, h: HandlerId, id: Id, name: Option<Label>)
    requires Inv(s) && LabelsFit(s) && Next(s, Check(h, id, name)).Some? && !Risky(s, Check(h, id, name))
    ensures LabelsFit(Next(s, Check(h, id, name)).value)
  {
    var s' := Next(s, Check(h, id, name)).value;
    forall i | i in s'.db.ids ensures LabelFits(s', i) {
      assert LabelFits(s, i);
      StillOnItsWay(s, s', i, h);
    }
    forall f, g | f in s'.handlers && g in s'.handlers ensures SameLabel(s', f, g) {
      assert f in s.handlers && g in s.handlers ==> SameLabel(s, f, g);
    }
    forall g | g in s'.handlers ensures CallFits(s', g) {
      assert g in s.handlers ==> CallFits(s, g);
    }
  }

  lemma {:induction false} CarefulAbandon(s: System, h: HandlerId)
    requires Inv(s) && LabelsFit(s) && Next(s, Abandon(h)).Some? && !Risky(s, Abandon(h))
    ensures LabelsFit(Next(s, Abandon(h)).value)
  {
    var s' := Next(s, Abandon(h)).value;
    var mine := s.handlers[h].id;
    forall i | i in s'.db.ids ensures LabelFits(s', i) {
      assert LabelFits(s, i);
      if s.handlers[h] != Written(i, s.db.ids[i]) {
        StillOnItsWay(s, s', i, h);
      } else if Shows(s, i) && LabelInMemory(s, i) != s.db.ids[i] {
        var g :| g in s.handlers && g != h && s.handlers[g].id == i && s.handlers[g].Written?;
        assert CallFits(s, g);
        assert s'.handlers[g] == Written(i, s'.db.ids[i]);
      }
    }
    forall f, g | f in s'.handlers && g in s'.handlers ensures SameLabel(s', f, g) {
      assert SameLabel(s, f, g);
    }
    forall g | g in s'.handlers ensures CallFits(s', g) {
      assert CallFits(s, g);
    }
  }

  lemma {:induction false} CarefulCommit(s: System, h: HandlerId)
    requires Inv(s) && LabelsFit(s) && Next(s, Commit(h)).Some?
    ensures LabelsFit(Next(s, Commit(h)).value)
  {
    var s' := Next(s, Commit(h)).value;
    var mine := s.handlers[h].id;
    assert s'.handlers[h] == Written(mine, s'.db.ids[mine]);
    assert CallFits(s, h);
    forall i | i in s'.db.ids ensures LabelFits(s', i) {
      assert LabelFits(s, i);
      if i != mine {
        StillOnItsWay(s, s', i, h);
      }
    }
    forall f, g | f in s'.handlers && g in s'.handlers ensures SameLabel(s', f, g) {
      assert SameLabel(s, f, g);
    }
    forall g | g in s'.handlers ensures CallFits(s', g) {
      assert CallFits(s, g) && SameLabel(s, g, h);
    }
  }

  lemma {:induction false} CarefulEdit(s: System, h: HandlerId)
    requires Inv(s) && LabelsFit(s) && Next(s, EditLabel(h)).Some?
    ensures LabelsFit(Next(s, EditLabel(h)).value)
  {
    var s' := Next(s, EditLabel(h)).value;
    var mine := s.handlers[h].id;
    assert CallFits(s, h);
    forall i | i in s'.db.ids ensures LabelFits(s', i) {
      assert LabelFits(s, i);
      if i != mine {
        StillOnItsWay(s, s', i, h);
      }
    }
    forall f, g | f in s'.handlers && g in s'.handlers ensures SameLabel(s', f, g) {
      assert SameLabel(s, f, g);
    }
    forall g | g in s'.handlers ensures CallFits(s', g) {
      assert CallFits(s, g);
    }
  }

  predicate OfTask(step: Step) {
    step.Receive? || step.RegisterIds? || step.LogReadings? || step.EditSensors? || step.UpdateFails?
  }

  /** What a step of the update task leaves alone. */
  lemma {:induction false} TaskStep(s: System, step: Step)
    requires Inv(s) && Next(s, step).Some? && OfTask(step)
    ensures var s' := Next(s, step).value;
      && s'.handlers == s.handlers
      && (forall id :: id in s.db.ids ==> id in s'.db.ids && s'.db.ids[id] == s.db.ids[id])
      && (forall id :: id in s'.db.ids && id !in s.db.ids ==> s'.db.ids[id] == None && id !in s'.db.sensors)
      && (forall id :: id in s.db.ids && Shows(s', id) ==> Shows(s, id))
      && (forall id :: LabelInMemory(s', id) == LabelInMemory(s, id))
      && s.db.sensors.Keys <= s'.db.sensors.Keys
  {
  }

  lemma {:induction false} CarefulTask(s: System, step: Step)
    requires Inv(s) && LabelsFit(s) && Next(s, step).Some? && OfTask(step)
    ensures LabelsFit(Next(s, step).value)
  {
    var s' := Next(s, step).value;
    TaskStep(s, step);
    forall i | i in s'.db.ids ensures LabelFits(s', i) {
      if i in s.db.ids {
        assert LabelFits(s, i);
        if OnItsWay(s, i) {
          var g :| g in s.handlers && s.handlers[g] == Written(i, s.db.ids[i]);
          assert s'.handlers[g] == Written(i, s'.db.ids[i]);
        }
      }
    }
    forall f, g | f in s'.handlers && g in s'.handlers ensures SameLabel(s', f, g) {
      assert SameLabel(s, f, g);
    }
    forall g | g in s'.handlers ensures CallFits(s', g) {
      assert CallFits(s, g);
    }
  }

  lemma {:induction false} CarefulRestart(s: System)
    requires Inv(s) && Next(s, Restart).Some?
    ensures LabelsFit(Next(s, Restart).value)
  {
  }

  lemma {:induction false} CarefulStep(s: System, step: Step)
    requires Inv(s) && LabelsFit(s) && Next(s, step).Some? && !Risky(s, step)
    ensures LabelsFit(Next(s, step).value)
  {
    match step
    case Commit(h) => CarefulCommit(s, h);
    case EditLabel(h) => CarefulEdit(s, h);
    case Abandon(h) => CarefulAbandon(s, h);
    case Check(h, id, name) => CarefulCheck(s, h, id, name);
    case Restart => CarefulRestart(s);
    case _ => CarefulTask(s, step);
  }

  lemma {:induction false} CarefulRuns(start: System, steps: seq<Step>)
    requires Inv(start) && LabelsFit(start) && Careful(start, steps) && Exec(start, steps).Some?
    ensures LabelsFit(Exec(start, steps).value) && Inv(Exec(start, steps).value)
  {
    RunsKeepInv(start, steps);
    if steps != [] {
      var front := steps[..|steps| - 1];
      CarefulRuns(start, front);
      CarefulStep(Exec(start, front).value, steps[|steps| - 1]);
    }
  }

  /** In every careful interleaving the label in memory is the stored one for every id that no call is working
      on. */
  lemma {:induction false} LabelsAgree(ids: map<Id, Option<Label>>, logs: map<Id, Log>, steps: seq<Step>, id: Id)
    requires LogsIncrease(logs) && Careful(Boot(ids, logs), steps) && Exec(Boot(ids, logs), steps).Some?
    requires var s := Exec(Boot(ids, logs), steps).value; id in s.db.sensors && !InFlight(s, id)
    ensures var s := Exec(Boot(ids, logs), steps).value;
            id in s.db.ids && s.db.sensors[id].name == s.db.ids[id]
  {
    BootIsSound(ids, logs);
    CarefulRuns(Boot(ids, logs), steps);
    assert LabelFits(Exec(Boot(ids, logs), steps).value, id);
  }

  // ----- careful runs, put together -----

  /** Steps that are never risky. */
  predicate Plain(steps: seq<Step>) {
    forall i :: 0 <= i < |steps| ==> !steps[i].Check? && !steps[i].Abandon?
  }

  lemma {:induction false} PlainIsCareful(s: System, steps: seq<Step>)
    requires Plain(steps)
    ensures Careful(s, steps)
  {
    if steps != [] {
      PlainIsCareful(s, steps[..|steps| - 1]);
    }
  }

  lemma {:induction false} CarefulOne(s: System, step: Step)
    requires !Risky(s, step)
    ensures Careful(s, [step])
  {
    assert [step][..|[step]| - 1] == [];
  }

  lemma {:induction false} CarefulJoin(s: System, a: seq<Step>, t: System, b: seq<Step>)
    requires Careful(s, a) && Exec(s, a) == Some(t) && Careful(t, b)
    ensures Careful(s, a + b)
  {
    FreeJoin(Risky, s, a, t, b);
  }

  lemma {:induction false} FreeJoin(bad: (System, Step) -> bool, s: System, a: seq<Step>, t: System, b: seq<Step>)
    requires Free(bad, s, a) && Exec(s, a) == Some(t) && Free(bad, t, b)
    ensures Free(bad, s, a + b)
  {
    if b == [] {
      assert a + b == a;
    } else {
      var front, last := b[..|b| - 1], b[|b| - 1];
      FreeJoin(bad, s, a, t, front);
      ExecJoin(s, a, t, front);
      assert a + b == (a + front) + [last];
      FreeSnoc(bad, s, a + front, last);
    }
  }

  lemma {:induction false} FreeSnoc(bad: (System, Step) -> bool, s: System, front: seq<Step>, last: Step)
    requires Free(bad, s, front) && (Exec(s, front).Some? ==> !bad(Exec(s, front).value, last))
    ensures Free(bad, s, front + [last])
  {
    assert (front + [last])[..|front + [last]| - 1] == front;
  }

  // ----- schedules that diverge -----

  /** Two calls that have both found the sensor, with different labels: the older one ends up in the map. */
  lemma {:induction false} OverlapEnds(s: System, g: HandlerId, h: HandlerId, id: Id, name: Option<Label>)
    requires g in s.handlers && s.handlers[g].id == id && g != h && h in s.handlers
    requires s.handlers[h] == Found(id, name) && id in s.db.ids && id in s.db.sensors
    ensures var before := if s.handlers[g].Found? then [Commit(g)] else [];
            var steps := before + [Commit(h), EditLabel(h), EditLabel(g)];
            var end := Exec(s, steps);
      && Plain(steps) && end.Some? && end.value.handlers == s.handlers - {g, h}
      && id in end.value.db.ids && id in end.value.db.sensors
      && end.value.db.ids[id] == name && end.value.db.sensors[id].name == s.handlers[g].name
  {
    var before := if s.handlers[g].Found? then [Commit(g)] else [];
    ExecOne(s, Commit(g));
    var t := Exec(s, before).value;
    var t1 := Next(t, Commit(h)).value;
    var t2 := Next(t1, EditLabel(h)).value;
    var t3 := Next(t2, EditLabel(g)).value;
    ThreeSteps(t, Commit(h), t1, EditLabel(h), t2, EditLabel(g), t3);
    ExecJoin(s, before, t, [Commit(h), EditLabel(h), EditLabel(g)]);
    assert t3.handlers == s.handlers - {g, h};
  }

  /** Two overlapping calls with different labels: in this order the map keeps the older one. */
  lemma {:induction false} OverlapCanDiverge(s: System, g: HandlerId, h: HandlerId, id: Id, name: Option<Label>)
    requires Inv(s) && g in s.handlers && s.handlers[g].id == id && h !in s.handlers && id in s.db.sensors
    requires s.handlers[g].name != name
    ensures var before := if s.handlers[g].Found? then [Commit(g)] else [];
            var end := Exec(s, [Check(h, id, name)] + (before + [Commit(h), EditLabel(h), EditLabel(g)]));
      && Risky(s, Check(h, id, name))
      && end.Some? && end.value.handlers == s.handlers - {g}
      && id in end.value.db.ids && id in end.value.db.sensors
      && end.value.db.ids[id] == name && end.value.db.sensors[id].name == s.handlers[g].name
  {
    var t := Next(s, Check(h, id, name)).value;
    var before := if s.handlers[g].Found? then [Commit(g)] else [];
    ExecOne(s, Check(h, id, name));
    OverlapEnds(t, g, h, id, name);
    ExecJoin(s, [Check(h, id, name)], t, before + [Commit(h), EditLabel(h), EditLabel(g)]);
    assert t.handlers - {g, h} == s.handlers - {g};
  }

  /** The steps that are left to the update task after it has registered the ids. */
  function TaskLeft(task: Task): seq<Step> {
    match task
    case Registered(_) => [LogReadings, EditSensors]
    case Logged(_) => [EditSensors]
    case _ => []
  }

  predicate Pending(s: System) {
    s.task.Registered? || s.task.Logged?
  }

  lemma {:induction false} EarlyEnds(s: System, h: HandlerId, id: Id, name: Option<Label>)
    requires MapMatchesTable(s) && Pending(s) && id in s.db.ids && id !in s.db.sensors && Shows(s, id)
    requires h in s.handlers && s.handlers[h] == Found(id, name)
    ensures var steps := [Commit(h), EditLabel(h)] + TaskLeft(s.task);
            var end := Exec(s, steps);
      && Plain(steps) && end.Some? && end.value.handlers == s.handlers - {h} && end.value.task == Idle
      && id in end.value.db.ids && id in end.value.db.sensors
      && end.value.db.ids[id] == name && end.value.db.sensors[id].name == None
  {
    var t1 := Next(s, Commit(h)).value;
    var t2 := Next(t1, EditLabel(h)).value;
    ExecOne(s, Commit(h));
    ExecSnoc(s, [Commit(h)], EditLabel(h));
    assert [Commit(h)] + [EditLabel(h)] == [Commit(h), EditLabel(h)];
    assert t2.db.logs == s.db.logs && t2.db.known == s.db.known;
    TaskEnds(t2);
    ExecJoin(s, [Commit(h), EditLabel(h)], t2, TaskLeft(s.task));
    assert id in s.task.batch;
  }

  lemma {:induction false} TaskEnds(s: System)
    requires Pending(s) && (s.task.Registered? ==> LogAll(s.db, s.task.batch).Some?)
    ensures var end := Exec(s, TaskLeft(s.task));
      && end.Some? && end.value.task == Idle && end.value.handlers == s.handlers && end.value.db.ids == s.db.ids
      && end.value.db.sensors == ApplyBatch(s.db.sensors, s.task.batch)
  {
    if s.task.Logged? {
      ExecOne(s, EditSensors);
    } else {
      ExecOne(s, LogReadings);
      ExecSnoc(s, [LogReadings], EditSensors);
      assert [LogReadings] + [EditSensors] == [LogReadings, EditSensors];
    }
  }

  /** A call that starts while the update has not yet added the id to the map: its own map edit finds nothing. The
      update then adds the sensor without the label, or fails, and the sensor is in no map until a restart. */
  lemma {:induction false} EarlyCallCanDiverge(s: System, h: HandlerId, id: Id, name: Option<Label>)
    requires Inv(s) && Pending(s) && id in s.db.ids && id !in s.db.sensors && h !in s.handlers && name != None
    ensures Risky(s, Check(h, id, name)) <==> Shows(s, id)
    ensures Shows(s, id) ==>
      var end := Exec(s, [Check(h, id, name)] + ([Commit(h), EditLabel(h)] + TaskLeft(s.task)));
      && end.Some? && end.value.handlers == s.handlers && end.value.task == Idle
      && id in end.value.db.ids && id in end.value.db.sensors
      && end.value.db.ids[id] == name && end.value.db.sensors[id].name == None
    ensures !Shows(s, id) ==>
      var end := Exec(s, [Check(h, id, name), Commit(h), EditLabel(h), LogReadings]);
      && end.Some? && end.value.handlers == s.handlers && end.value.task == Failed
      && id in end.value.db.ids && end.value.db.ids[id] == name && id !in end.value.db.sensors
  {
    var a := Check(h, id, name);
    var t := Next(s, a).value;
    assert t.handlers - {h} == s.handlers;
    if Shows(s, id) {
      ExecOne(s, a);
      EarlyEnds(t, h, id, name);
      ExecJoin(s, [a], t, [Commit(h), EditLabel(h)] + TaskLeft(s.task));
    } else {
      EarlyFails(s, h, id, name);
    }
  }

  lemma {:induction false} EarlyFails(s: System, h: HandlerId, id: Id, name: Option<Label>)
    requires Pending(s) && id in s.db.ids && id !in s.db.sensors && h !in s.handlers && !Shows(s, id)
    ensures var end := Exec(s, [Check(h, id, name), Commit(h), EditLabel(h), LogReadings]);
      && end.Some? && end.value.handlers == s.handlers && end.value.task == Failed
      && id in end.value.db.ids && end.value.db.ids[id] == name && id !in end.value.db.sensors
  {
    var s1 := Next(s, Check(h, id, name)).value;
    var s2 := Next(s1, Commit(h)).value;
    var s3 := Next(s2, EditLabel(h)).value;
    assert s3.handlers == s.handlers;
    var batch := s.task.batch;
    assert forall i :: CanLog(s3.db, batch, i) <==> CanLog(s.db, batch, i);
    FourSteps(s, Check(h, id, name), s1, Commit(h), s2, EditLabel(h), s3, LogReadings, s3.(task := Failed));
  }

  /** A call dropped between its write and its map edit leaves the map behind. */
  lemma {:induction false} DroppedCallDiverges(s: System, h: HandlerId, id: Id, name: Option<Label>)
    requires Inv(s) && h in s.handlers && s.handlers[h] == Found(id, name)
    requires id in s.db.sensors && s.db.sensors[id].name != name
    ensures var end := Exec(s, [Commit(h), Abandon(h)]);
      && end.Some? && end.value.handlers == s.handlers - {h} && end.value.db.sensors == s.db.sensors
      && id in end.value.db.ids && end.value.db.ids[id] == name
    ensures Risky(Next(s, Commit(h)).value, Abandon(h)) <==>
      forall g :: g in s.handlers && g != h && s.handlers[g].id == id ==> s.handlers[g].Found?
  {
    var t := Next(s, Commit(h)).value;
    TwoSteps(s, Commit(h), t, Abandon(h), Next(t, Abandon(h)).value);
    assert t.handlers - {h} == s.handlers - {h};
    assert forall g :: g in s.handlers && g != h ==> t.handlers[g] == s.handlers[g];
  }

  // ----- the risky steps are exactly those that can break it -----

  /** No call is working on the sensor, and its labels differ. */
  ghost predicate Diverged(s: System) {
    exists id :: id in s.db.sensors && id in s.db.ids && !InFlight(s, id) && s.db.sensors[id].name != s.db.ids[id]
  }

  /** Even if everything is careful from here on. */
  ghost predicate CanDiverge(s: System) {
    exists steps :: Careful(s, steps) && Exec(s, steps).Some? && Diverged(Exec(s, steps).value)
  }

  predicate Stays(s: System, id: Id, keep: set<HandlerId>, h: HandlerId)
    requires h in s.handlers
  {
    s.handlers[h].id != id || h in keep
  }

  /** The calls for a sensor, but for those in `keep`, come to an end: one that has written edits the map, any other
      one is dropped. */
  lemma {:induction false} Clear(s: System, id: Id, keep: set<HandlerId>) returns (steps: seq<Step>, t: System)
    ensures Careful(s, steps) && Exec(s, steps) == Some(t)
    ensures t.handlers == map h | h in s.handlers && Stays(s, id, keep, h) :: s.handlers[h]
    ensures t.task == s.task && t.db.ids == s.db.ids && t.db.logs == s.db.logs && t.db.known == s.db.known
    ensures t.db.sensors.Keys == s.db.sensors.Keys
    ensures (forall h :: h in s.handlers && !Stays(s, id, keep, h) ==> s.handlers[h].Found?) ==>
      t.db.sensors == s.db.sensors
    decreases |s.handlers|
  {
    if h :| h in s.handlers && !Stays(s, id, keep, h) {
      var step := if s.handlers[h].Found? then Abandon(h) else EditLabel(h);
      var s1 := Next(s, step).value;
      assert s1.handlers == s.handlers - {h};
      var rest;
      rest, t := Clear(s1, id, keep);
      ExecOne(s, step);
      CarefulOne(s, step);
      CarefulJoin(s, [step], s1, rest);
      ExecJoin(s, [step], s1, rest);
      steps := [step] + rest;
    } else {
      steps, t := [], s;
    }
  }

  lemma {:induction false} ThenDiverges(s: System, a: seq<Step>, t: System, b: seq<Step>)
    requires Careful(s, a) && Exec(s, a) == Some(t)
    requires Plain(b) && Exec(t, b).Some? && Diverged(Exec(t, b).value)
    ensures CanDiverge(s)
  {
    PlainIsCareful(t, b);
    CarefulJoin(s, a, t, b);
    ExecJoin(s, a, t, b);
  }

  lemma {:induction false} OverlapIsRisk(s: System, g: HandlerId, h: HandlerId, id: Id, name: Option<Label>)
    requires id in s.db.ids && id in s.db.sensors && g in s.handlers && s.handlers[g].id == id
    requires h in s.handlers && s.handlers[h] == Found(id, name) && s.handlers[g].name != name
    ensures CanDiverge(s)
  {
    var clear, t := Clear(s, id, {g, h});
    OverlapEnds(t, g, h, id, name);
    var before := if s.handlers[g].Found? then [Commit(g)] else [];
    var steps := before + [Commit(h), EditLabel(h), EditLabel(g)];
    var end := Exec(t, steps).value;
    assert id in end.db.sensors && !InFlight(end, id);
    ThenDiverges(s, clear, t, steps);
  }

  lemma {:induction false} EarlyIsRisk(s: System, h: HandlerId, id: Id, name: Option<Label>)
    requires MapMatchesTable(s) && id in s.db.ids && id !in s.db.sensors && Shows(s, id)
    requires h in s.handlers && s.handlers[h] == Found(id, name) && name != None
    ensures CanDiverge(s)
  {
    var clear, t := Clear(s, id, {h});
    assert forall i :: s.task.Registered? ==> (CanLog(t.db, s.task.batch, i) <==> CanLog(s.db, s.task.batch, i));
    EarlyEnds(t, h, id, name);
    var steps := [Commit(h), EditLabel(h)] + TaskLeft(t.task);
    var end := Exec(t, steps).value;
    assert id in end.db.sensors && !InFlight(end, id);
    ThenDiverges(s, clear, t, steps);
  }

  lemma {:induction false} DropIsRisk(s: System, h: HandlerId)
    requires Inv(s) && LabelsFit(s) && Risky(s, Abandon(h))
    ensures CanDiverge(Next(s, Abandon(h)).value)
  {
    var id := s.handlers[h].id;
    var s' := Next(s, Abandon(h)).value;
    assert CallFits(s, h);
    var clear, t := Clear(s', id, {});
    assert id in t.db.sensors && !InFlight(t, id);
    assert Exec(t, []) == Some(t);
    ThenDiverges(s', clear, t, []);
  }

  lemma {:induction false} CarefulCannotDiverge(s: System)
    requires Inv(s) && LabelsFit(s)
    ensures !CanDiverge(s)
  {
    forall steps | Careful(s, steps) && Exec(s, steps).Some? ensures !Diverged(Exec(s, steps).value) {
      CarefulRuns(s, steps);
      FitMeansEqual(Exec(s, steps).value);
    }
  }

  lemma {:induction false} FitMeansEqual(s: System)
    requires LabelsFit(s)
    ensures !Diverged(s)
  {
    forall id | id in s.db.sensors && id in s.db.ids && !InFlight(s, id) ensures s.db.sensors[id].name == s.db.ids[id] {
      assert LabelFits(s, id);
    }
  }

  /** In any state that careful runs reach: after a step the labels of some sensor can come to differ for good, by
      careful steps alone, exactly when the step was risky. */
  lemma {:induction false} RiskyIff(s: System, step: Step)
    requires Inv(s) && LabelsFit(s) && Next(s, step).Some?
    ensures CanDiverge(Next(s, step).value) <==> Risky(s, step)
  {
    var s' := Next(s, step).value;
    if !Risky(s, step) {
      NextKeepsInv(s, step);
      CarefulStep(s, step);
      CarefulCannotDiverge(s');
    } else if step.Abandon? {
      DropIsRisk(s, step.h);
    } else {
      NextKeepsInv(s, step);
      if step.id !in s.db.sensors {
        EarlyRisk(s, step.h, step.id, step.name);
      } else {
        var g :| g in s.handlers && s.handlers[g].id == step.id && s.handlers[g].name != step.name;
        OverlapIsRisk(s', g, step.h, step.id, step.name);
      }
    }
  }

  /** Before the sensor has reached the map no call on its way has a label for it. */
  lemma {:induction false} EarlyRisk(s: System, h: HandlerId, id: Id, name: Option<Label>)
    requires Inv(s) && LabelsFit(s) && h !in s.handlers && id !in s.db.sensors && Risky(s, Check(h, id, name))
    ensures CanDiverge(Next(s, Check(h, id, name)).value)
  {
    forall g | g in s.handlers && s.handlers[g].id == id ensures s.handlers[g].name == None {
      assert CallFits(s, g);
    }
    EarlyIsRisk(Next(s, Check(h, id, name)).value, h, id, name);
  }
}
