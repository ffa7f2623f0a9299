/** When the router goes down, and with which panic. */
module RouterPanics {
  import opened Common
  import opened Messages
  import opened Drain
  import opened Router
  import opened RouterSafety
  import opened RouterDelivery

  // ----- what the run did before -----

  /** The receiver of `c` has been dropped. */
  predicate Gone(steps: seq<Step>, c: ChanId) {
    steps != [] && (steps[|steps| - 1].event == Close(c) || Gone(steps[..|steps| - 1], c))
  }

  /** A failed pull has left an empty cell in slot `k`. */
  predicate Emptied(mode: Mode, steps: seq<Step>, k: FilterKey) {
    steps != [] &&
    var front, last := steps[..|steps| - 1], steps[|steps| - 1];
    || Emptied(mode, front, k)
    || (last.key == k && Exec(mode, front).Running? && FailedPull(Exec(mode, front).state, last))
  }

  lemma {:induction false} GoneIff(mode: Mode, steps: seq<Step>, c: ChanId)
    requires Exec(mode, steps).Running?
    ensures c in Exec(mode, steps).state.closed <==> Gone(steps, c)
  {
    if steps != [] {
      GoneIff(mode, steps[..|steps| - 1], c);
      ClosedStep(mode, Exec(mode, steps[..|steps| - 1]).state, steps[|steps| - 1]);
    }
  }

  lemma {:induction false} ClosedStep(mode: Mode, s: State, step: Step)
    requires Next(mode, s, step).Running?
    ensures Next(mode, s, step).state.closed == if step.event.Close? then s.closed + {step.event.chan} else s.closed
  {
  }

  predicate EmptyCell(s: State, k: FilterKey) {
    k in s.subscribers && s.subscribers[k] == Oneshot(None)
  }

  /** An empty cell stays, and only a failed pull makes one. */
  lemma {:induction false} EmptyCellStep(mode: Mode, s: State, step: Step, k: FilterKey)
    requires s.filters.Keys == s.subscribers.Keys && Enabled(s, step) && Next(mode, s, step).Running?
    ensures EmptyCell(Next(mode, s, step).state, k) <==> EmptyCell(s, k) || (step.key == k && FailedPull(s, step))
  {
  }

  lemma {:induction false} EmptyCellIff(mode: Mode, steps: seq<Step>, k: FilterKey)
    requires Exec(mode, steps).Running?
    ensures EmptyCell(Exec(mode, steps).state, k) <==> Emptied(mode, steps, k)
  {
    if steps != [] {
      var front := steps[..|steps| - 1];
      EmptyCellIff(mode, front, k);
      SlotMapsAgree(mode, front);
      EmptyCellStep(mode, Exec(mode, front).state, steps[|steps| - 1], k);
    }
  }

  // ----- the three panics -----

  /** The message goes to a waiter or a stream whose receiver is gone, or a stream subscribes that nobody reads and
      that has a match in the buffer. */
  predicate MeetsClosed(steps: seq<Step>, s: State, step: Step) {
    match step.event
    case Arrive(m) =>
      && SomeMatch(s.filters, m) && step.key in s.subscribers
      && ChanOf(s.subscribers[step.key]).Some? && Gone(steps, ChanOf(s.subscribers[step.key]).value)
    case Listen(f, c) => Gone(steps, c) && exists m :: m in s.messages && f.IsMatch(m)
    case _ => false
  }

  /** The message goes to a waiter whose cell a failed pull has emptied. */
  predicate MeetsEmptied(mode: Mode, steps: seq<Step>, s: State, step: Step) {
    step.event.Arrive? && SomeMatch(s.filters, step.event.msg) && Emptied(mode, steps, step.key)
  }

  /** The drain as written runs past the end of the buffer. */
  ghost predicate RunsPastEnd(mode: Mode, steps: seq<Step>, s: State, step: Step) {
    && mode == AsWritten && step.event.Listen? && !Gone(steps, step.event.chan)
    && PastEnd(MatchIndexes(step.event.filter, s.messages), |s.messages|)
  }

  /** After any run, the next step panics exactly in these three cases, each with its own panic. */
  lemma {:induction false} PanicsIff(mode: Mode, steps: seq<Step>, step: Step)
    requires Exec(mode, steps).Running? && Enabled(Exec(mode, steps).state, step)
    ensures var s := Exec(mode, steps).state;
            PanicsAre(mode, steps, s, step, Next(mode, s, step))
  {
    var s := Exec(mode, steps).state;
    match step.event
    case Pull(_, _) =>
    case Listen(f, c) =>
      GoneIff(mode, steps, c);
      ListenPanics(mode, steps, s, f, c, step.key);
    case Arrive(m) =>
      SlotMapsAgree(mode, steps);
      EmptyCellIff(mode, steps, step.key);
      if SomeMatch(s.filters, m) && ChanOf(s.subscribers[step.key]).Some? {
        GoneIff(mode, steps, ChanOf(s.subscribers[step.key]).value);
      }
      ArrivePanics(mode, steps, s, m, step.key);
    case Close(_) =>
  }

  /** What the outcome `o` says about panics. */
  ghost predicate PanicsAre(mode: Mode, steps: seq<Step>, s: State, step: Step, o: Outcome) {
    && (o == Panicked(ClosedReceiver) <==> MeetsClosed(steps, s, step))
    && (o == Panicked(ReusedOneshot) <==> MeetsEmptied(mode, steps, s, step))
    && (o == Panicked(RemoveOutOfBounds) <==> RunsPastEnd(mode, steps, s, step))
    && (o.Panicked? <==>
          MeetsClosed(steps, s, step) || MeetsEmptied(mode, steps, s, step) || RunsPastEnd(mode, steps, s, step))
  }

  lemma {:induction false} ListenPanics(mode: Mode, steps: seq<Step>, s: State, f: GenericFilter, c: ChanId,
      k: FilterKey)
    requires c in s.closed <==> Gone(steps, c)
    ensures PanicsAre(mode, steps, s, Step(Listen(f, c), k), NextListen(mode, s, f, c, k))
  {
    DrainAsWrittenLaw(f, s.messages);
    MatchFound(f, s.messages);
  }

  lemma {:induction false} ArrivePanics(mode: Mode, steps: seq<Step>, s: State, m: GenericMessage, k: FilterKey)
    requires s.filters.Keys == s.subscribers.Keys && Enabled(s, Step(Arrive(m), k))
    requires EmptyCell(s, k) <==> Emptied(mode, steps, k)
    requires SomeMatch(s.filters, m) && ChanOf(s.subscribers[k]).Some? ==>
      (ChanOf(s.subscribers[k]).value in s.closed <==> Gone(steps, ChanOf(s.subscribers[k]).value))
    ensures PanicsAre(mode, steps, s, Step(Arrive(m), k), NextArrive(s, m, k))
  {
  }

  lemma {:induction false} MatchFound(f: GenericFilter, ms: Buffer)
    ensures |MatchIndexes(f, ms)| > 0 <==> exists m :: m in ms && f.IsMatch(m)
    ensures PastEnd(MatchIndexes(f, ms), |ms|) ==> |MatchIndexes(f, ms)| > 0
  {
    var idx := MatchIndexes(f, ms);
    if |idx| > 0 {
      assert idx[0] in idx;
    }
    if m :| m in ms && f.IsMatch(m) {
      var i :| 0 <= i < |ms| && ms[i] == m;
      assert i in idx;
    }
  }

  // ----- runs without a panic -----

  predicate NobodyLeaves(steps: seq<Step>) {
    forall i :: 0 <= i < |steps| ==> !steps[i].event.Close?
  }

  lemma {:induction false} NobodyGone(mode: Mode, steps: seq<Step>, c: ChanId, k: FilterKey)
    requires NobodyLeaves(steps)
    ensures !Gone(steps, c) && !Emptied(mode, steps, k)
  {
    if steps != [] {
      var front := steps[..|steps| - 1];
      NobodyGone(mode, front, c, k);
      if Exec(mode, front).Running? && steps[|steps| - 1].event.Pull? {
        NobodyGone(mode, front, steps[|steps| - 1].event.chan, k);
        GoneIff(mode, front, steps[|steps| - 1].event.chan);
      }
    }
  }

  /** As long as no receiver goes away the repaired router never panics, and the router as written panics only in
      the drain, and not if every new stream finds at most one match. */
  lemma {:induction false} NoPanicWithoutClose(mode: Mode, steps: seq<Step>)
    requires NobodyLeaves(steps) && Exec(mode, steps).Panicked?
    ensures mode == AsWritten && Exec(mode, steps) == Panicked(RemoveOutOfBounds) && !DrainsOne(mode, steps)
  {
    var front, last := steps[..|steps| - 1], steps[|steps| - 1];
    if Exec(mode, front).Panicked? {
      NoPanicWithoutClose(mode, front);
    } else {
      var s := Exec(mode, front).state;
      PanicsIff(mode, front, last);
      NobodyGone(mode, front, 0, last.key);
      if MeetsClosed(front, s, last) {
        var c := if last.event.Listen? then last.event.chan else ChanOf(s.subscribers[last.key]).value;
        NobodyGone(mode, front, c, last.key);
        assert false;
      }
      AsWrittenCorrectIff(last.event.filter, s.messages);
    }
  }

  /** The mesh loop starts again: its former stream `c` has lost its reader and is still registered when the new
      stream `d` subscribes. The next message for it, whatever filter both have, takes the router down. */
  lemma {:induction false} RestartedLoopPanics(mode: Mode, f: GenericFilter, c: ChanId, d: ChanId, m: GenericMessage)
    requires c != d && f.IsMatch(m)
    ensures Exec(mode, [Step(Listen(f, c), 0), Step(Close(c), 0), Step(Listen(f, d), 1), Step(Arrive(m), 0)])
            == Panicked(ClosedReceiver)
  {
    var a, b, e, g := Step(Listen(f, c), 0), Step(Close(c), 0), Step(Listen(f, d), 1), Step(Arrive(m), 0);
    assert MatchIndexes(f, []) == [] && DrainBy(mode, f, []) == Some(([], []));
    ExecSnoc(mode, [], a);
    assert [] + [a] == [a];
    ExecSnoc(mode, [a], b);
    assert [a] + [b] == [a, b];
    ExecSnoc(mode, [a, b], e);
    assert [a, b] + [e] == [a, b, e];
    ExecSnoc(mode, [a, b, e], g);
    assert [a, b, e] + [g] == [a, b, e, g];
    var s := Exec(mode, [a, b, e]).state;
    assert s.filters[0] == f && s.subscribers[0] == Stream(c) && c in s.closed;
  }
}
