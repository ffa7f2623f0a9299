/** When the router with the drain as written keeps device and normal traffic apart. */
module RouterAsWritten {
  import opened Common
  import opened Messages
  import opened Drain
  import opened Router
  import opened RouterSafety
  import opened RouterDelivery
  import opened RouterIsolation
  import opened KindDrains
  import Removal

  // ----- one step -----

  lemma {:induction false} SendAllProject(c: ChanId, ms: Buffer, kind: MessageKind)
    ensures SentOfKind(SendAll(c, ms), kind) == SendAll(c, OfKind(ms, kind))
  {
    if ms != [] {
      var front, m := ms[..|ms| - 1], ms[|ms| - 1];
      assert ms == front + [m];
      SendAllProject(c, front, kind);
      SendAllSnoc(c, front, m);
      SendAllSnoc(c, OfKind(front, kind), m);
      SentOfKindSnoc(SendAll(c, front), Delivery(c, m), kind);
    }
  }

  lemma {:induction false} ProjectAnyServe(s: State, c: ChanId, ms: Buffer, rest: Buffer, kind: MessageKind)
    ensures Project(Serve(s, c, ms, rest), kind) == Serve(Project(s, kind), c, OfKind(ms, kind), OfKind(rest, kind))
  {
    SentOfKindAppend(s.deliveries, SendAll(c, ms), kind);
    SendAllProject(c, ms, kind);
  }

  lemma {:induction false} SameServe(s: State, c: ChanId, a: Buffer, b: Buffer, x: Buffer, y: Buffer)
    ensures Serve(s, c, a, x) == Serve(s, c, b, y) <==> a == b && x == y
  {
    if Serve(s, c, a, x) == Serve(s, c, b, y) {
      var n := |s.deliveries|;
      assert (s.deliveries + SendAll(c, a))[n..] == SendAll(c, a);
      assert (s.deliveries + SendAll(c, b))[n..] == SendAll(c, b);
      assert forall i :: 0 <= i < |a| ==> SendAll(c, a)[i].msg == a[i];
      assert forall i :: 0 <= i < |b| ==> SendAll(c, b)[i].msg == b[i];
      assert a == b;
    }
  }

  /** What a step of the router as written leaves a running router with. */
  lemma {:induction false} ListenAsWritten(s: State, f: GenericFilter, c: ChanId, k: FilterKey)
    requires NextListen(AsWritten, s, f, c, k).Running?
    ensures DrainAsWritten(f, s.messages).Some?
    ensures var (taken, rest) := DrainAsWritten(f, s.messages).value;
      NextListen(AsWritten, s, f, c, k).state == Register(Serve(s, c, taken, rest), k, f, Stream(c))
  {
  }

  /** A stream's subscription does to its kind what it would do without the other one exactly when its drain keeps
      to its kind, and nothing to the other kind exactly when its drain takes nothing of it. */
  lemma {:induction false} ListenKeepsKindsIff(s: State, f: GenericFilter, c: ChanId, k: FilterKey, kind: MessageKind)
    requires k !in s.filters && s.filters.Keys == s.subscribers.Keys && Distinct(s.messages)
    requires NextListen(AsWritten, s, f, c, k).Running?
    ensures var s' := NextListen(AsWritten, s, f, c, k).state;
      if f.kind == kind then
        NextListen(AsWritten, Project(s, kind), f, c, k) == Running(Project(s', kind))
        <==> KeepsToItsKind(f, s.messages)
      else
        Project(s', kind) == Project(s, kind)
        <==> !HitsOtherKind(s.messages, Removal.Positions(MatchIndexes(f, s.messages)), f.kind)
  {
    var (taken, rest) := DrainAsWritten(f, s.messages).value;
    ListenAsWritten(s, f, c, k);
    ProjectRegister(Serve(s, c, taken, rest), k, f, Stream(c), kind);
    ProjectAnyServe(s, c, taken, rest, kind);
    if f.kind == kind {
      OwnKindListenIff(s, f, c, k);
    } else {
      OtherKindKeptIff(f, s.messages, kind);
      var p := Project(s, kind);
      SameServe(p, c, OfKind(taken, kind), [], OfKind(rest, kind), p.messages);
      assert p.deliveries + SendAll(c, []) == p.deliveries;
      assert Serve(p, c, [], p.messages) == p;
    }
  }

  lemma {:induction false} OwnKindListenIff(s: State, f: GenericFilter, c: ChanId, k: FilterKey)
    requires Distinct(s.messages) && NextListen(AsWritten, s, f, c, k).Running?
    ensures var (taken, rest) := DrainAsWritten(f, s.messages).value;
            var p := Project(s, f.kind);
            var own := Register(Serve(p, c, OfKind(taken, f.kind), OfKind(rest, f.kind)), k, f, Stream(c));
      NextListen(AsWritten, p, f, c, k) == Running(own) <==> KeepsToItsKind(f, s.messages)
  {
    var (taken, rest) := DrainAsWritten(f, s.messages).value;
    var p := Project(s, f.kind);
    MatchRanks(f, s.messages);
    DrainKeepsKindIff(f, s.messages);
    OwnTaken(f, s.messages);
    if NextListen(AsWritten, p, f, c, k).Running? {
      var (t, r) := DrainAsWritten(f, p.messages).value;
      ListenAsWritten(p, f, c, k);
      SameServe(p, c, t, OfKind(taken, f.kind), r, OfKind(rest, f.kind));
      SameRegister(Serve(p, c, t, r), Serve(p, c, OfKind(taken, f.kind), OfKind(rest, f.kind)), k, f, Stream(c));
    }
  }

  lemma {:induction false} SameRegister(s: State, t: State, k: FilterKey, f: GenericFilter, sub: Subscriber)
    requires s.filters == t.filters && s.subscribers == t.subscribers
    ensures Register(s, k, f, sub) == Register(t, k, f, sub) <==> s == t
  {
  }

  /** The drain takes as many messages among its kind as among all. */
  lemma {:induction false} OwnTaken(f: GenericFilter, ms: Buffer)
    requires DrainAsWritten(f, ms).Some?
    ensures var taken := DrainAsWritten(f, ms).value.0;
            var own := DrainAsWritten(f, OfKind(ms, f.kind));
      && (own.Some? && own.value.0 == OfKind(taken, f.kind) ==> OfKind(taken, f.kind) == taken)
      && (KeepsToItsKind(f, ms) ==> OfKind(taken, f.kind) == taken)
  {
    var p := Removal.Positions(MatchIndexes(f, ms));
    var q := Removal.Positions(MatchIndexes(f, OfKind(ms, f.kind)));
    DrainAt(f, ms);
    DrainAt(f, OfKind(ms, f.kind));
    MatchRanks(f, ms);
    Removal.AtLength(ms, p);
    if DrainAsWritten(f, OfKind(ms, f.kind)).Some? {
      Removal.AtLength(OfKind(ms, f.kind), q);
    }
    OfKindLength(Removal.At(ms, p), f.kind);
    OtherKindTaken(ms, p, f.kind);
    if KeepsToItsKind(f, ms) {
      KeptDrain(f, ms);
    }
  }

  // ----- runs -----

  /** Every drain of the run keeps to its kind. */
  ghost predicate DrainsApart(steps: seq<Step>) {
    steps == [] ||
    var front, last := steps[..|steps| - 1], steps[|steps| - 1];
    && DrainsApart(front)
    && (Exec(AsWritten, front).Running? && last.event.Listen? ==>
          KeepsToItsKind(last.event.filter, Exec(AsWritten, front).state.messages))
  }

  /** At every point of the run, each kind is where the steps of that kind alone would have led. */
  ghost predicate KindsApart(steps: seq<Step>) {
    steps == [] || (KindsApart(steps[..|steps| - 1]) && forall kind :: KindAlone(steps, kind))
  }

  predicate KindAlone(steps: seq<Step>, kind: MessageKind) {
    Exec(AsWritten, steps).Running? ==>
      Exec(AsWritten, StepsOfKind(steps, kind)) == Running(Project(Exec(AsWritten, steps).state, kind))
  }

  /** At most one match is always apart. */
  lemma {:induction false} DrainsOneIsApart(steps: seq<Step>)
    requires DrainsOne(AsWritten, steps)
    ensures DrainsApart(steps)
  {
    if steps != [] {
      DrainsOneIsApart(steps[..|steps| - 1]);
      var front, last := steps[..|steps| - 1], steps[|steps| - 1];
      if Exec(AsWritten, front).Running? && last.event.Listen? {
        OneKeeps(last.event.filter, Exec(AsWritten, front).state.messages);
      }
    }
  }

  lemma {:induction false} KeptListen(s: State, f: GenericFilter, c: ChanId, k: FilterKey, kind: MessageKind)
    requires k !in s.filters && s.filters.Keys == s.subscribers.Keys && KeepsToItsKind(f, s.messages)
    requires NextListen(AsWritten, s, f, c, k).Running?
    ensures var s' := NextListen(AsWritten, s, f, c, k).state;
      if f.kind == kind then NextListen(AsWritten, Project(s, kind), f, c, k) == Running(Project(s', kind))
      else Project(s', kind) == Project(s, kind)
  {
    var (taken, rest) := DrainAsWritten(f, s.messages).value;
    var p := Project(s, kind);
    ListenAsWritten(s, f, c, k);
    ProjectRegister(Serve(s, c, taken, rest), k, f, Stream(c), kind);
    ProjectAnyServe(s, c, taken, rest, kind);
    KeptDrain(f, s.messages);
    if f.kind == kind {
      OwnTaken(f, s.messages);
      MatchRanks(f, s.messages);
    } else {
      OtherKindKeptIff(f, s.messages, kind);
      assert p.deliveries + SendAll(c, []) == p.deliveries;
    }
  }

  /** The step of one kind, or no step. */
  lemma {:induction false} StepApart(s: State, step: Step, kind: MessageKind)
    requires s.filters.Keys == s.subscribers.Keys && Enabled(s, step) && Next(AsWritten, s, step).Running?
    requires step.event.Listen? ==> KeepsToItsKind(step.event.filter, s.messages)
    ensures EventOfKind(step.event, kind) ==>
      && Enabled(Project(s, kind), step)
      && Next(AsWritten, Project(s, kind), step) == Running(Project(Next(AsWritten, s, step).state, kind))
    ensures !EventOfKind(step.event, kind) ==> Project(Next(AsWritten, s, step).state, kind) == Project(s, kind)
  {
    if step.event.Listen? {
      KeptListen(s, step.event.filter, step.event.chan, step.key, kind);
    } else {
      StepOfKind(s, step, kind);
    }
  }

  /** The code as written keeps the kinds apart as long as every drain keeps to its kind. */
  lemma {:induction false} AsWrittenKindsDoNotInterfere(steps: seq<Step>, kind: MessageKind)
    requires DrainsApart(steps) && Exec(AsWritten, steps).Running?
    ensures Exec(AsWritten, StepsOfKind(steps, kind)) == Running(Project(Exec(AsWritten, steps).state, kind))
  {
    if steps == [] {
      assert Project(INIT, kind) == INIT;
    } else {
      var n := |steps| - 1;
      AsWrittenKindsDoNotInterfere(steps[..n], kind);
      SlotMapsAgree(AsWritten, steps[..n]);
      StepApart(Exec(AsWritten, steps[..n]).state, steps[n], kind);
      StepsSnoc(steps, kind);
    }
  }

  lemma {:induction false} StepsSnoc(steps: seq<Step>, kind: MessageKind)
    requires steps != []
    ensures var front, last := StepsOfKind(steps[..|steps| - 1], kind), steps[|steps| - 1];
      Exec(AsWritten, StepsOfKind(steps, kind))
      == if EventOfKind(last.event, kind) then After(AsWritten, Exec(AsWritten, front), last)
         else Exec(AsWritten, front)
  {
    var front, last := StepsOfKind(steps[..|steps| - 1], kind), steps[|steps| - 1];
    if EventOfKind(last.event, kind) {
      ExecSnoc(AsWritten, front, last);
    } else {
      assert StepsOfKind(steps, kind) == front;
    }
  }

  /** Exactly as long: over a run of distinct messages the kinds are apart at every point if and only if every drain
      keeps to its kind. */
  lemma {:induction false} KindsApartIff(steps: seq<Step>)
    requires Exec(AsWritten, steps).Running? && Ordered(Arrivals(steps))
    ensures KindsApart(steps) <==> DrainsApart(steps)
  {
    if steps != [] {
      var front, last := steps[..|steps| - 1], steps[|steps| - 1];
      ArrivalsOrdered(steps);
      KindsApartIff(front);
      if DrainsApart(steps) {
        forall kind ensures KindAlone(steps, kind) {
          AsWrittenKindsDoNotInterfere(steps, kind);
        }
      } else if DrainsApart(front) {
        MixesHere(steps);
      }
    }
  }

  lemma {:induction false} MixesHere(steps: seq<Step>)
    requires steps != [] && Exec(AsWritten, steps).Running? && Ordered(Arrivals(steps))
    requires DrainsApart(steps[..|steps| - 1]) && !DrainsApart(steps)
    ensures !KindAlone(steps, steps[|steps| - 1].event.filter.kind)
  {
    var front, last := steps[..|steps| - 1], steps[|steps| - 1];
    var s := Exec(AsWritten, front).state;
    var f := last.event.filter;
    AsWrittenKindsDoNotInterfere(front, f.kind);
    SlotMapsAgree(AsWritten, front);
    ArrivalsOrdered(steps);
    BufferDistinct(AsWritten, front);
    ListenKeepsKindsIff(s, f, last.event.chan, last.key, f.kind);
    StepsSnoc(steps, f.kind);
  }

  // ----- distinct messages -----

  /** Messages that arrive once each stay distinct in the buffer. */
  lemma {:induction false} BufferDistinct(mode: Mode, steps: seq<Step>)
    requires Exec(mode, steps).Running? && Ordered(Arrivals(steps))
    ensures Distinct(Exec(mode, steps).state.messages)
  {
    var ms := Exec(mode, steps).state.messages;
    Conservation(mode, steps);
    OrderedOnce(Arrivals(steps));
    assert forall m :: multiset(ms)[m] <= multiset(Arrivals(steps))[m];
    OnceIsDistinct(ms);
  }

  lemma {:induction false} OrderedOnce(ms: Buffer)
    requires Ordered(ms)
    ensures forall m :: multiset(ms)[m] <= 1
  {
    if ms != [] {
      var front, last := ms[..|ms| - 1], ms[|ms| - 1];
      assert ms == front + [last];
      OrderedOnce(front);
      assert last !in front;
    }
  }

  lemma {:induction false} OnceIsDistinct(ms: Buffer)
    requires forall m :: multiset(ms)[m] <= 1
    ensures Distinct(ms)
  {
    forall i, j | 0 <= i < j < |ms| && ms[i] == ms[j] ensures multiset(ms)[ms[j]] >= 2 {
      CountTwice(ms, i, j);
    }
  }

  lemma {:induction false} CountTwice(ms: Buffer, i: nat, j: nat)
    requires i < j < |ms| && ms[i] == ms[j]
    ensures multiset(ms)[ms[j]] >= 2
  {
    var before := ms[..j];
    assert ms == before + [ms[j]] + ms[j + 1..];
    assert before[i] in before;
    assert multiset(before)[ms[j]] >= 1;
  }

  // ----- receivers -----

  ghost predicate AllOfItsKind(steps: seq<Step>, c: ChanId, ms: Buffer) {
    forall m :: m in ms ==> Lookup(steps, c).Some? && m.kind == Lookup(steps, c).value.filter.kind
  }

  /** Then every receiver gets messages of its kind only. */
  lemma {:induction false} OwnKindOnly(steps: seq<Step>, c: ChanId)
    requires FreshChans(steps) && Exec(AsWritten, steps).Running? && DrainsApart(steps)
    ensures AllOfItsKind(steps, c, Log(Exec(AsWritten, steps).state.deliveries, c))
  {
    if steps != [] {
      var n := |steps| - 1;
      var s := Exec(AsWritten, steps[..n]).state;
      ReceiversFit(AsWritten, steps[..n]);
      LogStep(AsWritten, s, steps[n], c);
      if Subscribes(steps[n].event, c) {
        assert Log(s.deliveries, c) == [];
        FirstOfKind(steps, s, c);
      } else {
        OwnKindOnly(steps[..n], c);
        LaterDeliveries(AsWritten, steps, s, c);
      }
    }
  }

  lemma {:induction false} FirstOfKind(steps: seq<Step>, s: State, c: ChanId)
    requires steps != [] && Subscribes(steps[|steps| - 1].event, c) && Next(AsWritten, s, steps[|steps| - 1]).Running?
    requires steps[|steps| - 1].event.Listen? ==> KeepsToItsKind(steps[|steps| - 1].event.filter, s.messages)
    ensures AllOfItsKind(steps, c, Sent(AsWritten, s, steps[|steps| - 1]).1)
  {
    match steps[|steps| - 1].event
    case Pull(f, _) =>
      if PullFirst(f, s.messages).Some? {
        PullFirstProperties(f, s.messages);
      }
    case Listen(f, _) =>
      var p := Removal.Positions(MatchIndexes(f, s.messages));
      KeptDrain(f, s.messages);
      DrainAt(f, s.messages);
      OtherKindTaken(s.messages, p, f.kind);
  }

  /** And exactly those it would get without the other kind's traffic. */
  lemma {:induction false} AsWrittenReceiversDoNotNotice(steps: seq<Step>, c: ChanId)
    requires FreshChans(steps) && Exec(AsWritten, steps).Running? && DrainsApart(steps) && Lookup(steps, c).Some?
    ensures var alone := Exec(AsWritten, StepsOfKind(steps, Lookup(steps, c).value.filter.kind));
            alone.Running? && Log(alone.state.deliveries, c) == Log(Exec(AsWritten, steps).state.deliveries, c)
  {
    var kind := Lookup(steps, c).value.filter.kind;
    AsWrittenKindsDoNotInterfere(steps, kind);
    OwnKindOnly(steps, c);
    LogOfKind(Exec(AsWritten, steps).state.deliveries, c, kind);
  }

  /** A stream without competitors gets everything from the code as written too, as long as every new stream finds
      at most one match. */
  lemma {:induction false} AsWrittenStreamGetsAll(steps: seq<Step>, f: GenericFilter, c: ChanId)
    requires FreshChans(steps) && Exec(AsWritten, steps).Running? && Unrivalled(steps, f, c)
    requires DrainsOne(AsWritten, steps) && Lookup(steps, c).Some?
    ensures Log(Exec(AsWritten, steps).state.deliveries, c) == Select(f, Arrivals(steps))
  {
    ModesAgree(AsWritten, steps);
    UnrivalledStreamGetsAll(steps, f, c);
  }

  // ----- a run that mixes the kinds -----

  /** A run that mixes the kinds: two device messages and a normal one arrive, and then a stream for all device
      messages gets the normal one and leaves a device message behind. */
  lemma {:induction false} AsWrittenMixesKinds(c: ChanId, d0: GenericMessage, d1: GenericMessage, n: GenericMessage)
    requires d0.kind == Device && d1.kind == Device && n.kind == Normal
    ensures var f := GenericFilter(None, None, None, Device);
            var before := [Step(Arrive(d0), 0), Step(Arrive(d1), 0), Step(Arrive(n), 0)];
            var o := Exec(AsWritten, before + [Step(Listen(f, c), 0)]);
            o.Running? && o.state.deliveries == SendAll(c, [d0, n]) && o.state.messages == [d1]
  {
    var f := GenericFilter(None, None, None, Device);
    var before, last := [Step(Arrive(d0), 0), Step(Arrive(d1), 0), Step(Arrive(n), 0)], Step(Listen(f, c), 0);
    ThreeBuffered(d0, d1, n);
    ExecSnoc(AsWritten, before, last);
    MatchTwo(f, d0, d1, n);
    Removal.RemoveTwo(d0, d1, n);
    assert [] + SendAll(c, [d0, n]) == SendAll(c, [d0, n]);
  }

  lemma {:induction false} ThreeBuffered(x: GenericMessage, y: GenericMessage, z: GenericMessage)
    ensures Exec(AsWritten, [Step(Arrive(x), 0), Step(Arrive(y), 0), Step(Arrive(z), 0)])
            == Running(INIT.(messages := [x, y, z]))
  {
    var a, b, e := Step(Arrive(x), 0), Step(Arrive(y), 0), Step(Arrive(z), 0);
    ExecSnoc(AsWritten, [], a);
    assert [] + [a] == [a] && [] + [x] == [x];
    ExecSnoc(AsWritten, [a], b);
    assert [a] + [b] == [a, b] && [x] + [y] == [x, y];
    ExecSnoc(AsWritten, [a, b], e);
    assert [a, b] + [e] == [a, b, e] && [x, y] + [z] == [x, y, z];
  }

  lemma {:induction false} MatchTwo(f: GenericFilter, d0: GenericMessage, d1: GenericMessage, n: GenericMessage)
    requires f.IsMatch(d0) && f.IsMatch(d1) && !f.IsMatch(n)
    ensures MatchIndexes(f, [d0, d1, n]) == [0, 1]
  {
    assert MatchIndexes(f, [d0]) == [0] by {
      Snoc(f, [], d0);
      assert [] + [d0] == [d0];
    }
    assert MatchIndexes(f, [d0, d1]) == [0, 1] by {
      Snoc(f, [d0], d1);
      assert [d0] + [d1] == [d0, d1];
    }
    Snoc(f, [d0, d1], n);
    assert [d0, d1] + [n] == [d0, d1, n];
  }
}
