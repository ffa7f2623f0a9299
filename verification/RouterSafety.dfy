/** What every run of the router keeps. */
module RouterSafety {
  import opened Common
  import opened Messages
  import opened Drain
  import opened Router

  // ----- slot maps -----

  /** Filters and subscribers always have the same keys, so the first `expect` of the loop never fires. */
  lemma {:induction false} SlotMapsAgree(mode: Mode, steps: seq<Step>)
    ensures Exec(mode, steps).Running? ==>
      Exec(mode, steps).state.filters.Keys == Exec(mode, steps).state.subscribers.Keys
    ensures Exec(mode, steps) != Panicked(InconsistentState)
  {
    if steps != [] {
      SlotMapsAgree(mode, steps[..|steps| - 1]);
    }
  }

  // ----- the failed one-shot send -----

  /** A pull that finds a message but whose receiver is already gone: the message goes back to the end of the
      buffer and the waiter is registered with an empty cell. */
  predicate FailedPull(s: State, step: Step) {
    step.event.Pull? && step.event.chan in s.closed && PullFirst(step.event.filter, s.messages).Some?
  }

  predicate NoFailedPull(mode: Mode, steps: seq<Step>) {
    steps == [] ||
    var front := steps[..|steps| - 1];
    && NoFailedPull(mode, front)
    && (Exec(mode, front).Running? ==> !FailedPull(Exec(mode, front).state, steps[|steps| - 1]))
  }

  predicate Armed(s: State) {
    forall k :: k in s.subscribers ==> s.subscribers[k] != Oneshot(None)
  }

  /** Without a failed pull every registered one-shot still holds its sender, so the second `expect` never
      fires either. */
  lemma {:induction false} OneshotsHoldTheirSender(mode: Mode, steps: seq<Step>)
    requires NoFailedPull(mode, steps)
    ensures Exec(mode, steps).Running? ==> Armed(Exec(mode, steps).state)
    ensures Exec(mode, steps) != Panicked(ReusedOneshot)
  {
    if steps != [] {
      var n := |steps| - 1;
      OneshotsHoldTheirSender(mode, steps[..n]);
      if Exec(mode, steps[..n]).Running? {
        var s := Exec(mode, steps[..n]).state;
        match steps[n].event
        case Listen(f, c) =>
        case _ =>
      }
    }
  }

  /** A failed pull leaves a buffered message beside a waiter that wants it, and the next arrival given to that
      waiter takes the router down. */
  lemma {:induction false} FailedPullArmsThePanic(mode: Mode, s: State, step: Step, m: GenericMessage)
    requires FailedPull(s, step) && Enabled(s, step)
    ensures Next(mode, s, step).Running? && !Settled(Next(mode, s, step).state)
    ensures step.event.filter.IsMatch(m) ==>
      var s' := Next(mode, s, step).state;
      Enabled(s', Step(Arrive(m), step.key)) && Next(mode, s', Step(Arrive(m), step.key)) == Panicked(ReusedOneshot)
  {
    var s' := Next(mode, s, step).state;
    var (x, rest) := PullFirst(step.event.filter, s.messages).value;
    PullFirstProperties(step.event.filter, s.messages);
    assert s'.messages[|rest|] == x;
    assert x in s'.messages && step.key in s'.filters && s'.filters[step.key].IsMatch(x);
    assert step.event.filter.IsMatch(m) ==> s'.filters[step.key].IsMatch(m);
  }

  /** The message it found moves to the end of the buffer. */
  lemma {:induction false} FailedPullMovesToEnd(mode: Mode, s: State, step: Step)
    requires FailedPull(s, step)
    ensures Next(mode, s, step).Running?
    ensures var i, ms := FirstMatch(step.event.filter, s.messages), s.messages;
            Next(mode, s, step).state.messages == ms[..i] + ms[i + 1..] + [ms[i]]
  {
    PullFirstAt(step.event.filter, s.messages, FirstMatch(step.event.filter, s.messages));
  }

  // ----- no stranded message -----

  /** No buffered message matches a registered filter. */
  ghost predicate Settled(s: State) {
    forall m, k :: m in s.messages && k in s.filters ==> !s.filters[k].IsMatch(m)
  }

  /** The two ways a step can strand a message. */
  predicate Strands(mode: Mode, s: State, step: Step) {
    || FailedPull(s, step)
    || (mode == AsWritten && step.event.Listen? && |MatchIndexes(step.event.filter, s.messages)| >= 2)
  }

  /** A step that does not panic keeps the router settled exactly when it is neither a failed pull nor an
      as-written drain of two or more matches. */
  lemma {:induction false} SettledIff(mode: Mode, s: State, step: Step)
    requires Settled(s) && Enabled(s, step) && Next(mode, s, step).Running?
    ensures Settled(Next(mode, s, step).state) <==> !Strands(mode, s, step)
  {
    match step.event
    case Pull(_, _) => SettledPull(mode, s, step);
    case Listen(_, _) => SettledListen(mode, s, step);
    case Arrive(_) => SettledArrive(mode, s, step);
    case Close(_) =>
  }

  lemma {:induction false} SettledPull(mode: Mode, s: State, step: Step)
    requires Settled(s) && Enabled(s, step) && step.event.Pull?
    ensures Next(mode, s, step).Running?
    ensures Settled(Next(mode, s, step).state) <==> !FailedPull(s, step)
  {
    var f := step.event.filter;
    PullFirstNone(f, s.messages);
    if FailedPull(s, step) {
      FailedPullArmsThePanic(mode, s, step, s.messages[0]);
    } else if PullFirst(f, s.messages).Some? {
      PullFirstProperties(f, s.messages);
    }
  }

  lemma {:induction false} SettledListen(mode: Mode, s: State, step: Step)
    requires Settled(s) && Enabled(s, step) && step.event.Listen? && Next(mode, s, step).Running?
    ensures Settled(Next(mode, s, step).state) <==> !Strands(mode, s, step)
  {
    var f := step.event.filter;
    var s' := Next(mode, s, step).state;
    assert s'.filters[step.key] == f;
    if Strands(mode, s, step) {
      AsWrittenStrands(f, s.messages);
      var m :| m in s'.messages && f.IsMatch(m);
      assert step.key in s'.filters && s'.filters[step.key].IsMatch(m);
    } else {
      AsWrittenCorrectIff(f, s.messages);
      SelectProperties(f, s.messages);
      assert s'.messages == Reject(f, s.messages);
      forall m, k | m in s'.messages && k in s'.filters ensures !s'.filters[k].IsMatch(m) {
        assert m in s.messages && !f.IsMatch(m);
      }
    }
  }

  lemma {:induction false} SettledArrive(mode: Mode, s: State, step: Step)
    requires Settled(s) && Enabled(s, step) && step.event.Arrive? && Next(mode, s, step).Running?
    ensures Settled(Next(mode, s, step).state)
  {
  }

  /** No step of the run strands a message. */
  predicate Clean(mode: Mode, steps: seq<Step>) {
    steps == [] ||
    var front := steps[..|steps| - 1];
    && Clean(mode, front)
    && (Exec(mode, front).Running? ==> !Strands(mode, Exec(mode, front).state, steps[|steps| - 1]))
  }

  lemma {:induction false} NoStrandedMessage(mode: Mode, steps: seq<Step>)
    requires Clean(mode, steps) && Exec(mode, steps).Running?
    ensures Settled(Exec(mode, steps).state)
  {
    if steps != [] {
      var n := |steps| - 1;
      NoStrandedMessage(mode, steps[..n]);
      SettledIff(mode, Exec(mode, steps[..n]).state, steps[n]);
    }
  }

  /** Every stream that subscribes finds at most one match in the buffer. */
  predicate DrainsOne(mode: Mode, steps: seq<Step>) {
    steps == [] ||
    var front, last := steps[..|steps| - 1], steps[|steps| - 1];
    && DrainsOne(mode, front)
    && (Exec(mode, front).Running? && last.event.Listen? ==>
          |MatchIndexes(last.event.filter, Exec(mode, front).state.messages)| <= 1)
  }

  /** On such runs the code as written and its repair are the same router. */
  lemma {:induction false} ModesAgree(mode: Mode, steps: seq<Step>)
    requires DrainsOne(mode, steps)
    ensures Exec(AsWritten, steps) == Exec(Repaired, steps)
    ensures DrainsOne(AsWritten, steps) && DrainsOne(Repaired, steps)
  {
    if steps != [] {
      var n := |steps| - 1;
      ModesAgree(mode, steps[..n]);
      if Exec(mode, steps[..n]).Running? && steps[n].event.Listen? {
        AsWrittenCorrectIff(steps[n].event.filter, Exec(mode, steps[..n]).state.messages);
      }
    }
  }

  // ----- order -----

  /** In order of arrival, without repetition. */
  predicate Ordered(ms: Buffer) {
    ms == [] || (Ordered(ms[..|ms| - 1]) && forall m :: m in ms[..|ms| - 1] ==> m.arrival < ms[|ms| - 1].arrival)
  }

  lemma {:induction false} OrderedAppend(a: Buffer, b: Buffer)
    requires Ordered(a) && Ordered(b)
    requires forall x, y :: x in a && y in b ==> x.arrival < y.arrival
    ensures Ordered(a + b)
  {
    if b == [] {
      assert a + b == a;
    } else {
      var n := |b| - 1;
      OrderedAppend(a, b[..n]);
      assert (a + b)[..|a + b| - 1] == a + b[..n];
      assert b[n] in b;
    }
  }

  lemma {:induction false} OrderedMeans(ms: Buffer, i: nat, j: nat)
    requires Ordered(ms) && i < j < |ms|
    ensures ms[i].arrival < ms[j].arrival
    decreases |ms|
  {
    if j == |ms| - 1 {
      assert ms[i] in ms[..j];
    } else {
      OrderedMeans(ms[..|ms| - 1], i, j);
    }
  }

  lemma {:induction false} OrderedSplit(a: Buffer, b: Buffer)
    requires Ordered(a + b)
    ensures Ordered(a) && Ordered(b) && forall x, y :: x in a && y in b ==> x.arrival < y.arrival
  {
    if b == [] {
      assert a + b == a;
    } else {
      var n := |b| - 1;
      var front := a + b[..n];
      assert (a + b)[..|a + b| - 1] == front && (a + b)[|a + b| - 1] == b[n];
      OrderedSplit(a, b[..n]);
      assert forall x :: x in a || x in b[..n] ==> x in front;
      assert b == b[..n] + [b[n]];
    }
  }

  /** Taking out positions keeps both parts in order. */
  lemma {:induction false} OrderedRemoval(ms: Buffer, p: seq<nat>)
    requires Removal.Within(p, |ms|) && Ordered(ms)
    ensures Ordered(Removal.At(ms, p)) && forall m :: m in Removal.At(ms, p) ==> m in ms
    ensures Ordered(Removal.Without(ms, p)) && forall m :: m in Removal.Without(ms, p) ==> m in ms
    decreases |p|
  {
    if p != [] {
      var last := p[|p| - 1];
      assert ms == ms[..last] + [ms[last]] + ms[last + 1..];
      OrderedSplit(ms[..last] + [ms[last]], ms[last + 1..]);
      OrderedSplit(ms[..last], [ms[last]]);
      OrderedRemoval(ms[..last], p[..|p| - 1]);
      assert ms[last] in ms[..last] + [ms[last]] && ms[last] in [ms[last]];
      OrderedAppend(Removal.At(ms[..last], p[..|p| - 1]), [ms[last]]);
      OrderedAppend(Removal.Without(ms[..last], p[..|p| - 1]), ms[last + 1..]);
    }
  }

  lemma {:induction false} DrainKeepsOrder(mode: Mode, f: GenericFilter, ms: Buffer)
    requires Ordered(ms) && DrainBy(mode, f, ms).Some?
    ensures var (taken, rest) := DrainBy(mode, f, ms).value; Ordered(taken) && Ordered(rest)
    ensures DrainBy(mode, f, ms).value.0 != [] ==> |MatchIndexes(f, ms)| > 0
  {
    if mode == AsWritten {
      DrainAsWrittenLaw(f, ms);
      OrderedRemoval(ms, Removal.Positions(MatchIndexes(f, ms)));
    } else {
      SplitByMatch(f, ms);
      OrderedRemoval(ms, MatchIndexes(f, ms));
      SelectProperties(f, ms);
    }
  }

  /** A pull gets the earliest buffered match. */
  lemma {:induction false} PullGetsEarliest(f: GenericFilter, ms: Buffer)
    requires Ordered(ms) && PullFirst(f, ms).Some?
    ensures var (m, rest) := PullFirst(f, ms).value;
            Ordered(rest) && forall x :: x in rest && f.IsMatch(x) ==> m.arrival < x.arrival
  {
    var i := FirstMatch(f, ms);
    PullFirstAt(f, ms, i);
    OrderedWithout(ms, i);
    assert forall x :: x in ms[..i] ==> !f.IsMatch(x);
  }

  lemma {:induction false} OrderedWithout(ms: Buffer, i: nat)
    requires Ordered(ms) && i < |ms|
    ensures Ordered(ms[..i] + ms[i + 1..])
    ensures forall x :: x in ms[i + 1..] ==> ms[i].arrival < x.arrival
  {
    var before, m, after := ms[..i], ms[i], ms[i + 1..];
    assert ms == before + ([m] + after);
    OrderedSplit(before, [m] + after);
    OrderedSplit([m], after);
    assert forall y :: y in after ==> y in [m] + after;
    OrderedAppend(before, after);
    assert m in [m];
  }

  function FirstMatch(f: GenericFilter, ms: Buffer): (i: nat)
    requires PullFirst(f, ms).Some?
    ensures i < |ms| && f.IsMatch(ms[i]) && forall j :: 0 <= j < i ==> !f.IsMatch(ms[j])
  {
    if f.IsMatch(ms[0]) then 0
    else
      var i := FirstMatch(f, ms[1..]);
      assert forall j :: 0 < j < i + 1 ==> ms[j] == ms[1..][j - 1];
      i + 1
  }
}
