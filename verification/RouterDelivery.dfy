/** What the receivers of a run get: who, how often, and in which order. */
module RouterDelivery {
  import opened Common
  import opened Messages
  import opened Drain
  import opened Router
  import opened RouterSafety
  import opened Proto

  // ----- channels -----

  predicate Subscribes(e: Event, c: ChanId) {
    (e.Pull? || e.Listen?) && e.chan == c
  }

  /** The subscription that created a channel. */
  function Lookup(steps: seq<Step>, c: ChanId): (r: Option<Event>)
    ensures r.Some? ==> Subscribes(r.value, c)
  {
    if steps == [] then None
    else
      var n := |steps| - 1;
      if Subscribes(steps[n].event, c) then Some(steps[n].event) else Lookup(steps[..n], c)
  }

  /** Every subscription makes a channel of its own. */
  predicate FreshChans(steps: seq<Step>) {
    steps == [] ||
    var n := |steps| - 1;
    && FreshChans(steps[..n])
    && (steps[n].event.Pull? || steps[n].event.Listen? ==> Lookup(steps[..n], steps[n].event.chan).None?)
  }

  function ChanOf(sub: Subscriber): Option<ChanId> {
    match sub
    case Oneshot(cell) => cell
    case Stream(c) => Some(c)
  }

  /** The channel a running step sends on, and what it sends. */
  function Sent(mode: Mode, s: State, step: Step): (ChanId, Buffer)
    requires Next(mode, s, step).Running?
  {
    match step.event
    case Pull(f, c) =>
      if PullFirst(f, s.messages).Some? && c !in s.closed then (c, [PullFirst(f, s.messages).value.0]) else (c, [])
    case Listen(f, c) => (c, DrainBy(mode, f, s.messages).value.0)
    case Arrive(m) =>
      if SomeMatch(s.filters, m) then (ChanOf(s.subscribers[step.key]).value, [m]) else (0, [])
    case Close(_) => (0, [])
  }

  lemma {:induction false} SentStep(mode: Mode, s: State, step: Step)
    requires Next(mode, s, step).Running?
    ensures var (d, ms) := Sent(mode, s, step);
            Next(mode, s, step).state.deliveries == s.deliveries + SendAll(d, ms)
  {
    var (d, ms) := Sent(mode, s, step);
    assert ms == [] ==> SendAll(d, ms) == [];
    assert |ms| == 1 ==> SendAll(d, ms) == [Delivery(d, ms[0])];
    match step.event
    case Pull(f, c) => assert PullFirst(f, s.messages).None? || PullFirst(f, s.messages).Some?;
    case Listen(f, c) =>
    case Arrive(m) =>
    case Close(_) =>
  }

  lemma {:induction false} LogStep(mode: Mode, s: State, step: Step, c: ChanId)
    requires Next(mode, s, step).Running?
    ensures Log(Next(mode, s, step).state.deliveries, c)
            == Log(s.deliveries, c) + (if Sent(mode, s, step).0 == c then Sent(mode, s, step).1 else [])
  {
    var (d, ms) := Sent(mode, s, step);
    SentStep(mode, s, step);
    LogAppend(s.deliveries, SendAll(d, ms), c);
    SendAllLog(d, ms, c);
  }

  lemma {:induction false} LogIsDelivered(d: seq<Delivery>, c: ChanId, m: GenericMessage)
    requires m in Log(d, c)
    ensures m in Msgs(d)
  {
    if m in Log(d[..|d| - 1], c) {
      LogIsDelivered(d[..|d| - 1], c, m);
    }
  }

  // ----- who gets what, and how often -----

  /** The subscriber in slot `k` is what its subscription said; a registered one-shot has received nothing. */
  ghost predicate FitsAt(steps: seq<Step>, s: State, k: FilterKey)
    requires k in s.subscribers && k in s.filters
  {
    match s.subscribers[k]
    case Oneshot(None) => true
    case Oneshot(Some(c)) => Lookup(steps, c) == Some(Pull(s.filters[k], c)) && Log(s.deliveries, c) == []
    case Stream(c) => Lookup(steps, c) == Some(Listen(s.filters[k], c))
  }

  ghost predicate SharedChan(s: State, j: FilterKey, k: FilterKey)
    requires j in s.subscribers && k in s.subscribers
  {
    ChanOf(s.subscribers[j]).Some? && ChanOf(s.subscribers[j]) == ChanOf(s.subscribers[k])
  }

  ghost predicate RegistrationsFit(steps: seq<Step>, s: State) {
    && s.filters.Keys == s.subscribers.Keys
    && (forall k :: k in s.subscribers ==> FitsAt(steps, s, k))
    && (forall j, k :: j in s.subscribers && k in s.subscribers && j != k ==> !SharedChan(s, j, k))
  }

  ghost predicate DeliveriesFit(steps: seq<Step>, s: State) {
    && (forall c :: Lookup(steps, c).None? ==> Log(s.deliveries, c) == [])
    && (forall c :: Lookup(steps, c).Some? && Lookup(steps, c).value.Pull? ==> |Log(s.deliveries, c)| <= 1)
  }

  lemma {:induction false} ReceiversFit(mode: Mode, steps: seq<Step>)
    requires FreshChans(steps) && Exec(mode, steps).Running?
    ensures RegistrationsFit(steps, Exec(mode, steps).state)
    ensures DeliveriesFit(steps, Exec(mode, steps).state)
  {
    if steps != [] {
      var n := |steps| - 1;
      ReceiversFit(mode, steps[..n]);
      var s := Exec(mode, steps[..n]).state;
      RegistrationsFitStep(mode, steps, s);
      DeliveriesFitStep(mode, steps, s);
    }
  }

  ghost predicate ReadyFor(mode: Mode, steps: seq<Step>, s: State) {
    && steps != [] && FreshChans(steps)
    && RegistrationsFit(steps[..|steps| - 1], s) && DeliveriesFit(steps[..|steps| - 1], s)
    && Enabled(s, steps[|steps| - 1]) && Next(mode, s, steps[|steps| - 1]).Running?
  }

  lemma {:induction false} RegistrationsFitStep(mode: Mode, steps: seq<Step>, s: State)
    requires ReadyFor(mode, steps, s)
    ensures RegistrationsFit(steps, Next(mode, s, steps[|steps| - 1]).state)
  {
    var step := steps[|steps| - 1];
    var s' := Next(mode, s, step).state;
    forall c ensures Log(s'.deliveries, c)
      == Log(s.deliveries, c) + (if Sent(mode, s, step).0 == c then Sent(mode, s, step).1 else [])
    {
      LogStep(mode, s, step, c);
    }
    match step.event
    case Pull(f, c) =>
      PullFits(steps, s, s', f, c, step.key);
    case Listen(f, c) =>
      AddRegistration(steps, s, s', f, Stream(c), step.key);
    case Arrive(m) =>
      ArriveFits(steps, s, s', m, step.key);
    case Close(_) =>
      KeepRegistrations(steps, s, s');
  }

  lemma {:induction false} DeliveriesFitStep(mode: Mode, steps: seq<Step>, s: State)
    requires ReadyFor(mode, steps, s)
    ensures DeliveriesFit(steps, Next(mode, s, steps[|steps| - 1]).state)
  {
    var step := steps[|steps| - 1];
    var s' := Next(mode, s, step).state;
    if step.event.Arrive? && SomeMatch(s.filters, step.event.msg) {
      assert FitsAt(steps[..|steps| - 1], s, step.key);
    }
    forall c ensures
      && (Lookup(steps, c).None? ==> Log(s'.deliveries, c) == [])
      && (Lookup(steps, c).Some? && Lookup(steps, c).value.Pull? ==> |Log(s'.deliveries, c)| <= 1)
    {
      LogStep(mode, s, step, c);
    }
  }

  lemma {:induction false} PullFits(steps: seq<Step>, s: State, s': State, f: GenericFilter, c: ChanId, k: FilterKey)
    requires steps != [] && steps[|steps| - 1] == Step(Pull(f, c), k) && k !in s.filters
    requires RegistrationsFit(steps[..|steps| - 1], s)
    requires Lookup(steps[..|steps| - 1], c).None? && Log(s.deliveries, c) == []
    requires NextPull(s, f, c, k) == Running(s')
    requires forall d :: d != c ==> Log(s'.deliveries, d) == Log(s.deliveries, d)
    ensures RegistrationsFit(steps, s')
  {
    forall j | j in s.subscribers ensures s.subscribers[j] != Oneshot(Some(c)) {
      assert FitsAt(steps[..|steps| - 1], s, j);
    }
    match PullFirst(f, s.messages)
    case None => AddRegistration(steps, s, s', f, Oneshot(Some(c)), k);
    case Some((m, rest)) =>
      if c in s.closed {
        AddRegistration(steps, s, s', f, Oneshot(None), k);
      } else {
        KeepRegistrations(steps, s, s');
      }
  }

  lemma {:induction false} ArriveFits(steps: seq<Step>, s: State, s': State, m: GenericMessage, k: FilterKey)
    requires steps != [] && steps[|steps| - 1] == Step(Arrive(m), k) && Enabled(s, Step(Arrive(m), k))
    requires RegistrationsFit(steps[..|steps| - 1], s)
    requires NextArrive(s, m, k) == Running(s')
    requires SomeMatch(s.filters, m) ==>
      forall d: ChanId :: Some(d) != ChanOf(s.subscribers[k]) ==> Log(s'.deliveries, d) == Log(s.deliveries, d)
    ensures RegistrationsFit(steps, s')
  {
    if SomeMatch(s.filters, m) {
      forall j | j in s'.subscribers && s'.subscribers[j].Oneshot?
        ensures ChanOf(s'.subscribers[j]) != ChanOf(s.subscribers[k])
      {
        assert j != k;
        assert !SharedChan(s, k, j);
      }
    }
    KeepRegistrations(steps, s, s');
  }

  /** A step that registers nothing and sends nothing to a one-shot that stays. */
  lemma {:induction false} KeepRegistrations(steps: seq<Step>, s: State, s': State)
    requires steps != [] && RegistrationsFit(steps[..|steps| - 1], s)
    requires s'.filters.Keys == s'.subscribers.Keys
    requires forall k :: k in s'.subscribers ==>
      k in s.subscribers && s'.subscribers[k] == s.subscribers[k] && s'.filters[k] == s.filters[k]
    requires forall k :: k in s'.subscribers && s'.subscribers[k].Oneshot? && s'.subscribers[k].cell.Some? ==>
      Log(s'.deliveries, s'.subscribers[k].cell.value) == Log(s.deliveries, s'.subscribers[k].cell.value)
    requires FreshLast(steps)
    ensures RegistrationsFit(steps, s')
  {
    forall k | k in s'.subscribers ensures FitsAt(steps, s', k) {
      assert FitsAt(steps[..|steps| - 1], s, k);
    }
    forall j, k | j in s'.subscribers && k in s'.subscribers && j != k ensures !SharedChan(s', j, k) {
      assert !SharedChan(s, j, k);
    }
  }

  predicate FreshLast(steps: seq<Step>)
    requires steps != []
  {
    var n := |steps| - 1;
    steps[n].event.Pull? || steps[n].event.Listen? ==> Lookup(steps[..n], steps[n].event.chan).None?
  }

  /** A step that registers one subscriber in a free slot. */
  lemma {:induction false} AddRegistration(steps: seq<Step>, s: State, s': State, f: GenericFilter, sub: Subscriber,
      k: FilterKey)
    requires steps != [] && RegistrationsFit(steps[..|steps| - 1], s) && k !in s.filters && FreshLast(steps)
    requires s'.filters == s.filters[k := f] && s'.subscribers == s.subscribers[k := sub]
    requires forall d :: Lookup(steps[..|steps| - 1], d).Some? ==> Log(s'.deliveries, d) == Log(s.deliveries, d)
    requires match sub
             case Oneshot(None) => true
             case Oneshot(Some(c)) => steps[|steps| - 1].event == Pull(f, c) && Log(s'.deliveries, c) == []
             case Stream(c) => steps[|steps| - 1].event == Listen(f, c)
    ensures RegistrationsFit(steps, s')
  {
    forall j | j in s'.subscribers ensures FitsAt(steps, s', j) {
      assert j != k ==> FitsAt(steps[..|steps| - 1], s, j);
    }
    forall i, j | i in s'.subscribers && j in s'.subscribers && i != j ensures !SharedChan(s', i, j) {
      if i != k && j != k {
        assert !SharedChan(s, i, j);
      } else {
        var other := if i == k then j else i;
        assert FitsAt(steps[..|steps| - 1], s, other);
      }
    }
  }

  lemma {:induction false} LookupAt(steps: seq<Step>, i: nat, c: ChanId)
    requires FreshChans(steps) && i < |steps| && Subscribes(steps[i].event, c)
    ensures Lookup(steps, c) == Some(steps[i].event)
    decreases |steps|
  {
    if i < |steps| - 1 {
      LookupAt(steps[..|steps| - 1], i, c);
    }
  }

  /** Over a whole run a one-shot receives at most one message, whichever mode and whatever is closed. */
  lemma {:induction false} OneshotAtMostOnce(mode: Mode, steps: seq<Step>, i: nat, f: GenericFilter, c: ChanId)
    requires FreshChans(steps) && Exec(mode, steps).Running?
    requires i < |steps| && steps[i].event == Pull(f, c)
    ensures |Log(Exec(mode, steps).state.deliveries, c)| <= 1
  {
    ReceiversFit(mode, steps);
    LookupAt(steps, i, c);
  }

  /** How many buffered messages a stream's own subscription found. */
  function Found(mode: Mode, steps: seq<Step>, c: ChanId): nat {
    if steps == [] then 0
    else
      var front, e := steps[..|steps| - 1], steps[|steps| - 1].event;
      if !Subscribes(e, c) then Found(mode, front, c)
      else if e.Listen? && Exec(mode, front).Running? then |MatchIndexes(e.filter, Exec(mode, front).state.messages)|
      else 0
  }

  predicate AllMatch(steps: seq<Step>, c: ChanId, ms: Buffer) {
    forall m :: m in ms ==> Lookup(steps, c).Some? && Lookup(steps, c).value.filter.IsMatch(m)
  }

  /** A receiver gets only messages that match the filter it subscribed with exactly when the drain is the repaired
      one or its own subscription found at most one match; so a one-shot always does. */
  lemma {:induction false} DeliveredMatchIff(mode: Mode, steps: seq<Step>, c: ChanId)
    requires FreshChans(steps) && Exec(mode, steps).Running?
    ensures AllMatch(steps, c, Log(Exec(mode, steps).state.deliveries, c))
            <==> mode == Repaired || Found(mode, steps, c) <= 1
  {
    if steps != [] {
      var n := |steps| - 1;
      var s := Exec(mode, steps[..n]).state;
      ReceiversFit(mode, steps[..n]);
      LogStep(mode, s, steps[n], c);
      if Subscribes(steps[n].event, c) {
        assert Log(s.deliveries, c) == [];
        FirstDeliveries(mode, steps, s, c);
      } else {
        DeliveredMatchIff(mode, steps[..n], c);
        LaterDeliveries(mode, steps, s, c);
        LaterMatch(steps, c, Log(s.deliveries, c),
                   if Sent(mode, s, steps[n]).0 == c then Sent(mode, s, steps[n]).1 else []);
      }
    }
  }

  lemma {:induction false} LaterMatch(steps: seq<Step>, c: ChanId, log: Buffer, sent: Buffer)
    requires steps != [] && !Subscribes(steps[|steps| - 1].event, c) && AllMatch(steps, c, sent)
    ensures AllMatch(steps, c, log + sent) <==> AllMatch(steps[..|steps| - 1], c, log)
  {
    AllMatchAppend(steps, c, log, sent);
  }

  lemma {:induction false} AllMatchAppend(steps: seq<Step>, c: ChanId, a: Buffer, b: Buffer)
    ensures AllMatch(steps, c, a + b) <==> AllMatch(steps, c, a) && AllMatch(steps, c, b)
  {
    forall m ensures m in a + b <==> m in a || m in b {
    }
  }

  lemma {:induction false} FirstDeliveries(mode: Mode, steps: seq<Step>, s: State, c: ChanId)
    requires steps != [] && Exec(mode, steps[..|steps| - 1]) == Running(s)
    requires Subscribes(steps[|steps| - 1].event, c) && Next(mode, s, steps[|steps| - 1]).Running?
    ensures AllMatch(steps, c, Sent(mode, s, steps[|steps| - 1]).1) <==> mode == Repaired || Found(mode, steps, c) <= 1
  {
    match steps[|steps| - 1].event
    case Pull(f, _) =>
      if PullFirst(f, s.messages).Some? {
        PullFirstProperties(f, s.messages);
      }
    case Listen(f, _) =>
      if mode == Repaired {
        SelectProperties(f, s.messages);
      } else {
        AsWrittenDeliversMatchesIff(f, s.messages);
      }
  }

  lemma {:induction false} LaterDeliveries(mode: Mode, steps: seq<Step>, s: State, c: ChanId)
    requires ReadyFor(mode, steps, s) && !Subscribes(steps[|steps| - 1].event, c)
    ensures Sent(mode, s, steps[|steps| - 1]).0 == c ==> AllMatch(steps, c, Sent(mode, s, steps[|steps| - 1]).1)
  {
    var step := steps[|steps| - 1];
    if step.event.Arrive? && SomeMatch(s.filters, step.event.msg) {
      assert FitsAt(steps[..|steps| - 1], s, step.key);
    }
  }

  lemma {:induction false} FoundByPull(mode: Mode, steps: seq<Step>, c: ChanId)
    requires Lookup(steps, c).Some? && Lookup(steps, c).value.Pull?
    ensures Found(mode, steps, c) == 0
  {
    if !Subscribes(steps[|steps| - 1].event, c) {
      FoundByPull(mode, steps[..|steps| - 1], c);
    }
  }

  /** The filter `pull_msg` subscribes with: the caller's, with the opcode of the packet type it wants. */
  function PullMsgFilter(f: GenericFilter, opcode: Opcode): GenericFilter {
    f.(opcode := Some(opcode))
  }

  /** What `pull_msg` for a device gets is a device message from there, of the packet type it will parse, and the
      only one. */
  lemma {:induction false} DeviceAnswer(mode: Mode, steps: seq<Step>, i: nat, f: DevFilter, opcode: Opcode, c: ChanId,
      m: GenericMessage)
    requires FreshChans(steps) && Exec(mode, steps).Running? && i < |steps|
    requires steps[i].event == Pull(PullMsgFilter(FromDevFilter(f), opcode), c)
    requires m in Log(Exec(mode, steps).state.deliveries, c)
    ensures Log(Exec(mode, steps).state.deliveries, c) == [m]
    ensures m.kind == Device && m.content.opcode == opcode
    ensures f.sourceAddr.Some? ==> m.sourceAddr == f.sourceAddr.value
    ensures f.netIndex.Some? ==> m.index == f.netIndex.value
  {
    OneshotAtMostOnce(mode, steps, i, PullMsgFilter(FromDevFilter(f), opcode), c);
    LookupAt(steps, i, c);
    FoundByPull(mode, steps, c);
    DeliveredMatchIff(mode, steps, c);
  }

  /** What a stream for normal messages gets is normal messages with the application index and from the address it
      asked for, and of the packet type if it named one. */
  lemma {:induction false} NormalStream(mode: Mode, steps: seq<Step>, i: nat, f: Filter, c: ChanId, m: GenericMessage)
    requires FreshChans(steps) && Exec(mode, steps).Running? && i < |steps|
    requires steps[i].event == Listen(FromFilter(f), c) && (mode == Repaired || Found(mode, steps, c) <= 1)
    requires m in Log(Exec(mode, steps).state.deliveries, c)
    ensures m.kind == Normal
    ensures f.sourceAddr.Some? ==> m.sourceAddr == f.sourceAddr.value
    ensures f.appIndex.Some? ==> m.index == f.appIndex.value
    ensures f.opcode.Some? ==> m.content.opcode == f.opcode.value
  {
    LookupAt(steps, i, c);
    DeliveredMatchIff(mode, steps, c);
  }

  // ----- order -----

  /** Everything held arrived before. */
  lemma {:induction false} HeldHaveArrived(mode: Mode, steps: seq<Step>, c: ChanId)
    requires Exec(mode, steps).Running?
    ensures forall x :: x in Exec(mode, steps).state.messages ==> x in Arrivals(steps)
    ensures forall x :: x in Log(Exec(mode, steps).state.deliveries, c) ==> x in Arrivals(steps)
  {
    var s := Exec(mode, steps).state;
    Conservation(mode, steps);
    forall x | x in s.messages ensures x in Arrivals(steps) {
      assert x in multiset(s.messages);
      assert x in multiset(Arrivals(steps));
    }
    forall x | x in Log(s.deliveries, c) ensures x in Arrivals(steps) {
      LogIsDelivered(s.deliveries, c, x);
      assert x in multiset(Msgs(s.deliveries));
      assert x in multiset(Arrivals(steps));
    }
  }

  lemma {:induction false} PullKeepsOrder(s: State, f: GenericFilter, c: ChanId, k: FilterKey)
    requires Ordered(s.messages) && !FailedPull(s, Step(Pull(f, c), k))
    ensures Ordered(NextPull(s, f, c, k).state.messages)
  {
    if PullFirst(f, s.messages).Some? {
      PullGetsEarliest(f, s.messages);
    }
  }

  predicate Newer(m: GenericMessage, ms: Buffer) {
    forall x :: x in ms ==> x.arrival < m.arrival
  }

  lemma {:induction false} AddNewest(ms: Buffer, m: GenericMessage)
    requires Ordered(ms) && Newer(m, ms)
    ensures Ordered(ms + [m])
  {
    assert (ms + [m])[..|ms + [m]| - 1] == ms;
  }

  lemma {:induction false} ArriveKeepsOrder(s: State, m: GenericMessage, k: FilterKey)
    requires Ordered(s.messages) && Newer(m, s.messages) && NextArrive(s, m, k).Running?
    ensures Ordered(NextArrive(s, m, k).state.messages)
  {
    if !SomeMatch(s.filters, m) {
      AddNewest(s.messages, m);
    }
  }

  lemma {:induction false} BufferKeepsOrder(mode: Mode, s: State, step: Step)
    requires Ordered(s.messages) && Next(mode, s, step).Running? && !FailedPull(s, step)
    requires step.event.Arrive? ==> Newer(step.event.msg, s.messages)
    ensures Ordered(Next(mode, s, step).state.messages)
  {
    match step.event
    case Pull(f, c) => PullKeepsOrder(s, f, c, step.key);
    case Listen(f, c) => DrainKeepsOrder(mode, f, s.messages);
    case Arrive(m) => ArriveKeepsOrder(s, m, step.key);
    case Close(_) =>
  }

  lemma {:induction false} SentInOrder(mode: Mode, s: State, step: Step)
    requires Ordered(s.messages) && Next(mode, s, step).Running?
    ensures Ordered(Sent(mode, s, step).1)
    ensures step.event.Arrive? ==> Sent(mode, s, step).1 == [] || Sent(mode, s, step).1 == [step.event.msg]
    ensures step.event.Close? ==> Sent(mode, s, step).1 == []
    ensures step.event.Pull? || step.event.Listen? ==> Sent(mode, s, step).0 == step.event.chan
  {
    match step.event
    case Pull(f, c) =>
      if PullFirst(f, s.messages).Some? {
        assert [PullFirst(f, s.messages).value.0][..0] == [];
      }
    case Listen(f, c) => DrainKeepsOrder(mode, f, s.messages);
    case Arrive(m) => assert [m][..0] == [];
    case Close(_) =>
  }

  /** What a receiver gets stays in order, provided a new subscription has got nothing and arrivals are new. */
  lemma {:induction false} LogKeepsOrder(mode: Mode, s: State, step: Step, c: ChanId)
    requires Ordered(s.messages) && Ordered(Log(s.deliveries, c)) && Next(mode, s, step).Running?
    requires step.event.Arrive? ==> Newer(step.event.msg, Log(s.deliveries, c))
    requires (step.event.Pull? || step.event.Listen?) && step.event.chan == c ==> Log(s.deliveries, c) == []
    ensures Ordered(Log(Next(mode, s, step).state.deliveries, c))
  {
    var log := Log(s.deliveries, c);
    var (d, ms) := Sent(mode, s, step);
    LogStep(mode, s, step, c);
    SentInOrder(mode, s, step);
    if d != c || ms == [] {
      assert log + [] == log;
    } else if step.event.Arrive? {
      assert ms == [step.event.msg];
      AddNewest(log, step.event.msg);
    } else {
      assert log == [] && [] + ms == ms;
    }
  }

  lemma {:induction false} ArrivalIsNewer(mode: Mode, front: seq<Step>, m: GenericMessage, c: ChanId)
    requires Exec(mode, front).Running? && Ordered(Arrivals(front) + [m])
    ensures Newer(m, Exec(mode, front).state.messages) && Newer(m, Log(Exec(mode, front).state.deliveries, c))
  {
    HeldHaveArrived(mode, front, c);
    OrderedSplit(Arrivals(front), [m]);
    assert m in [m];
  }

  lemma {:induction false} ArrivalsOrdered(steps: seq<Step>)
    requires steps != [] && Ordered(Arrivals(steps))
    ensures Ordered(Arrivals(steps[..|steps| - 1]))
  {
    OrderedSplit(
      Arrivals(steps[..|steps| - 1]),
      match steps[|steps| - 1].event case Arrive(m) => [m] case _ => []);
  }

  /** In a run without failed pulls the buffer and everything one receiver gets are in order of arrival. */
  lemma {:induction false} OrderOfArrival(mode: Mode, steps: seq<Step>, c: ChanId)
    requires FreshChans(steps) && Ordered(Arrivals(steps)) && NoFailedPull(mode, steps)
    requires Exec(mode, steps).Running?
    ensures Ordered(Exec(mode, steps).state.messages)
    ensures Ordered(Log(Exec(mode, steps).state.deliveries, c))
  {
    if steps != [] {
      var front, step := steps[..|steps| - 1], steps[|steps| - 1];
      var s := Exec(mode, front).state;
      ArrivalsOrdered(steps);
      OrderOfArrival(mode, front, c);
      if step.event.Arrive? {
        ArrivalIsNewer(mode, front, step.event.msg, c);
      }
      if (step.event.Pull? || step.event.Listen?) && step.event.chan == c {
        ReceiversFit(mode, front);
        assert Log(s.deliveries, c) == [];
      }
      BufferKeepsOrder(mode, s, step);
      LogKeepsOrder(mode, s, step, c);
    }
  }
}
