/** What a one-shot waiter without competitors gets. */
module RouterOneshots {
  import opened Common
  import opened Messages
  import opened Drain
  import opened Router
  import opened RouterSafety
  import opened RouterDelivery
  import opened RouterIsolation

  // ----- the first match -----

  function Head(ms: Buffer): Buffer {
    if ms == [] then [] else ms[..1]
  }

  function Tail(ms: Buffer): Buffer {
    if ms == [] then [] else ms[1..]
  }

  lemma {:induction false} HeadTailSnoc(ms: Buffer, m: GenericMessage)
    requires ms != []
    ensures Head(ms + [m]) == Head(ms) && Tail(ms + [m]) == Tail(ms) + [m]
  {
  }

  lemma {:induction false} SelectHead(f: GenericFilter, x: GenericMessage, tail: Buffer)
    ensures Select(f, [x] + tail) == if f.IsMatch(x) then [x] + Select(f, tail) else Select(f, tail)
  {
    SelectAppend(f, [x], tail);
    Snoc(f, [], x);
    assert [] + [x] == [x] && [] + Select(f, tail) == Select(f, tail);
  }

  lemma {:induction false} PullSelects(f: GenericFilter, ms: Buffer)
    ensures PullFirst(f, ms).None? ==> Select(f, ms) == []
    ensures PullFirst(f, ms).Some? ==>
      var (m, rest) := PullFirst(f, ms).value; Head(Select(f, ms)) == [m] && Tail(Select(f, ms)) == Select(f, rest)
  {
    if ms != [] {
      PullSelects(f, ms[1..]);
      assert ms == [ms[0]] + ms[1..];
      SelectHead(f, ms[0], ms[1..]);
      if !f.IsMatch(ms[0]) && PullFirst(f, ms[1..]).Some? {
        SelectHead(f, ms[0], PullFirst(f, ms[1..]).value.1);
      }
    }
  }

  // ----- what steps keep -----

  /** The waiter on `c` is registered in slot `k`. */
  predicate WaitsAt(s: State, c: ChanId, k: FilterKey) {
    k in s.subscribers && s.subscribers[k] == Oneshot(Some(c))
  }

  /** Before its subscription (`on`) everything the waiter wants is buffered; afterwards it has the first of it. */
  predicate WaiterFed(all: Buffer, on: bool, s: State, f: GenericFilter, c: ChanId) {
    && c !in s.closed
    && Select(f, s.messages) == (if on then Tail(Select(f, all)) else Select(f, all))
    && Log(s.deliveries, c) == (if on then Head(Select(f, all)) else [])
  }

  /** It is registered in one slot, under its own filter, exactly while there has been nothing for it. */
  ghost predicate WaiterSlots(waits: bool, s: State, f: GenericFilter, c: ChanId) {
    && s.filters.Keys == s.subscribers.Keys
    && (waits ==> exists k :: WaitsAt(s, c, k))
    && (forall k :: WaitsAt(s, c, k) ==> waits && s.filters[k] == f)
    && (forall j, k :: WaitsAt(s, c, j) && WaitsAt(s, c, k) ==> j == k)
    && (forall k :: k in s.filters && !WaitsAt(s, c, k) ==> Apart(f, s.filters[k]) && s.subscribers[k] != Stream(c))
  }

  ghost predicate WaiterServed(all: Buffer, on: bool, s: State, f: GenericFilter, c: ChanId) {
    WaiterFed(all, on, s, f, c) && WaiterSlots(on && Select(f, all) == [], s, f, c)
  }

  lemma {:induction false} RegisterOther(waits: bool, s: State, f: GenericFilter, c: ChanId, g: GenericFilter,
      sub: Subscriber, k: FilterKey)
    requires WaiterSlots(waits, s, f, c) && k !in s.filters && Apart(f, g)
    requires sub != Oneshot(Some(c)) && sub != Stream(c)
    ensures WaiterSlots(waits, Register(s, k, g, sub), f, c)
  {
    var s' := Register(s, k, g, sub);
    if waits {
      var j :| WaitsAt(s, c, j);
      assert WaitsAt(s', c, j);
    }
    assert forall j :: WaitsAt(s', c, j) <==> WaitsAt(s, c, j);
  }

  lemma {:induction false} RegisterWaiter(s: State, f: GenericFilter, c: ChanId, k: FilterKey)
    requires WaiterSlots(false, s, f, c) && k !in s.filters
    ensures WaiterSlots(true, Register(s, k, f, Oneshot(Some(c))), f, c)
  {
    var s' := Register(s, k, f, Oneshot(Some(c)));
    assert WaitsAt(s', c, k);
    assert forall j :: WaitsAt(s', c, j) <==> j == k;
  }

  /** Messages the waiter does not want go to another receiver. */
  lemma {:induction false} FeedOther(all: Buffer, on: bool, s: State, f: GenericFilter, c: ChanId, d: ChanId,
      taken: Buffer, rest: Buffer)
    requires WaiterFed(all, on, s, f, c) && d != c && Select(f, rest) == Select(f, s.messages)
    ensures WaiterFed(all, on, Serve(s, d, taken, rest), f, c)
  {
    LogAppend(s.deliveries, SendAll(d, taken), c);
    SendAllLog(d, taken, c);
    assert Log(s.deliveries, c) + [] == Log(s.deliveries, c);
  }

  lemma {:induction false} OtherPulls(all: Buffer, on: bool, s: State, f: GenericFilter, c: ChanId, g: GenericFilter,
      d: ChanId, k: FilterKey)
    requires WaiterServed(all, on, s, f, c) && k !in s.filters && d != c && Apart(f, g)
    ensures WaiterServed(all, on, NextPull(s, g, d, k).state, f, c)
  {
    var waits := on && Select(f, all) == [];
    match PullFirst(g, s.messages)
    case None => RegisterOther(waits, s, f, c, g, Oneshot(Some(d)), k);
    case Some((m, rest)) =>
      PullFirstProperties(g, s.messages);
      PullLeavesOthers(f, g, s.messages);
      if d in s.closed {
        FailedPullKeeps(all, on, s, f, c, g, m, rest, k);
      } else {
        FeedOther(all, on, s, f, c, d, [m], rest);
        OneServed(s, d, m, rest);
        SlotsStay(waits, s, Serve(s, d, [m], rest), f, c);
      }
  }

  lemma {:induction false} OneServed(s: State, d: ChanId, m: GenericMessage, rest: Buffer)
    ensures Serve(s, d, [m], rest) == s.(messages := rest, deliveries := s.deliveries + [Delivery(d, m)])
  {
    assert SendAll(d, [m]) == [Delivery(d, m)];
  }

  lemma {:induction false} SlotsStay(waits: bool, s: State, s': State, f: GenericFilter, c: ChanId)
    requires WaiterSlots(waits, s, f, c) && s'.filters == s.filters && s'.subscribers == s.subscribers
    ensures WaiterSlots(waits, s', f, c)
  {
    assert forall j :: WaitsAt(s', c, j) <==> WaitsAt(s, c, j);
  }

  /** Another pull finds a message and its receiver gone. */
  lemma {:induction false} FailedPullKeeps(all: Buffer, on: bool, s: State, f: GenericFilter, c: ChanId,
      g: GenericFilter, m: GenericMessage, rest: Buffer, k: FilterKey)
    requires WaiterServed(all, on, s, f, c) && k !in s.filters && Apart(f, g) && g.IsMatch(m)
    requires Select(f, rest) == Select(f, s.messages)
    ensures WaiterServed(all, on, Register(s.(messages := rest + [m]), k, g, Oneshot(None)), f, c)
  {
    var waits := on && Select(f, all) == [];
    Snoc(f, rest, m);
    SlotsStay(waits, s, s.(messages := rest + [m]), f, c);
    RegisterOther(waits, s.(messages := rest + [m]), f, c, g, Oneshot(None), k);
  }

  lemma {:induction false} OtherListens(all: Buffer, on: bool, s: State, f: GenericFilter, c: ChanId, g: GenericFilter,
      d: ChanId, k: FilterKey)
    requires WaiterServed(all, on, s, f, c) && k !in s.filters && d != c && Apart(f, g)
    requires NextListen(Repaired, s, g, d, k).Running?
    ensures WaiterServed(all, on, NextListen(Repaired, s, g, d, k).state, f, c)
  {
    var taken, rest := Select(g, s.messages), Reject(g, s.messages);
    RejectLeavesOthers(f, g, s.messages);
    FeedOther(all, on, s, f, c, d, taken, rest);
    SlotsStay(on && Select(f, all) == [], s, Serve(s, d, taken, rest), f, c);
    RegisterOther(on && Select(f, all) == [], Serve(s, d, taken, rest), f, c, g, Stream(d), k);
  }

  /** The waiter itself subscribes. */
  lemma {:induction false} WaiterPulls(all: Buffer, s: State, f: GenericFilter, c: ChanId, k: FilterKey)
    requires WaiterServed(all, false, s, f, c) && k !in s.filters
    ensures WaiterServed(all, true, NextPull(s, f, c, k).state, f, c)
  {
    PullSelects(f, s.messages);
    match PullFirst(f, s.messages)
    case None => RegisterWaiter(s, f, c, k);
    case Some((m, rest)) =>
      LogAppend(s.deliveries, [Delivery(c, m)], c);
      SendOneLog(c, m, c);
      assert [] + [m] == [m];
  }

  /** A message that no filter wants. */
  lemma {:induction false} ArrivesUnwanted(all: Buffer, on: bool, s: State, f: GenericFilter, c: ChanId,
      m: GenericMessage, k: FilterKey)
    requires WaiterServed(all, on, s, f, c) && !SomeMatch(s.filters, m)
    ensures WaiterServed(all + [m], on, NextArrive(s, m, k).state, f, c)
  {
    var waits := on && Select(f, all) == [];
    if waits {
      NotWanted(waits, s, f, c, m);
    }
    FedLater(all, on, s, f, c, m);
    SlotsStay(waits, s, s.(messages := s.messages + [m]), f, c);
  }

  lemma {:induction false} FedLater(all: Buffer, on: bool, s: State, f: GenericFilter, c: ChanId, m: GenericMessage)
    requires WaiterFed(all, on, s, f, c) && (on && Select(f, all) == [] ==> !f.IsMatch(m))
    ensures WaiterFed(all + [m], on, s.(messages := s.messages + [m]), f, c)
    ensures on ==> (Select(f, all + [m]) == [] <==> Select(f, all) == [])
  {
    Snoc(f, all, m);
    Snoc(f, s.messages, m);
    if Select(f, all) != [] {
      HeadTailSnoc(Select(f, all), m);
    }
  }

  lemma {:induction false} NotWanted(waits: bool, s: State, f: GenericFilter, c: ChanId, m: GenericMessage)
    requires WaiterSlots(waits, s, f, c) && !SomeMatch(s.filters, m) && waits
    ensures !f.IsMatch(m)
  {
    var j :| WaitsAt(s, c, j);
    assert j in s.filters && !s.filters[j].IsMatch(m);
  }

  /** A message for the waiter. */
  lemma {:induction false} ArrivesForWaiter(all: Buffer, on: bool, s: State, f: GenericFilter, c: ChanId,
      m: GenericMessage, k: FilterKey)
    requires WaiterServed(all, on, s, f, c) && SomeMatch(s.filters, m) && WaitsAt(s, c, k)
    requires k in s.filters && s.filters[k].IsMatch(m)
    ensures WaiterServed(all + [m], on, NextArrive(s, m, k).state, f, c)
  {
    Snoc(f, all, m);
    assert c !in s.closed && s.filters[k] == f && Select(f, all) == [];
    assert Log(s.deliveries + [Delivery(c, m)], c) == [m] by {
      LogAppend(s.deliveries, [Delivery(c, m)], c);
      SendOneLog(c, m, c);
      assert [] + [m] == [m];
    }
    WaiterLeaves(s, f, c, k);
    SlotsStay(false, Unregister(s, k), NextArrive(s, m, k).state, f, c);
  }

  lemma {:induction false} WaiterLeaves(s: State, f: GenericFilter, c: ChanId, k: FilterKey)
    requires WaiterSlots(true, s, f, c) && WaitsAt(s, c, k)
    ensures WaiterSlots(false, Unregister(s, k), f, c)
  {
    var s' := Unregister(s, k);
    assert forall j :: WaitsAt(s', c, j) ==> WaitsAt(s, c, j) && j != k;
  }

  /** A message for another receiver. */
  lemma {:induction false} ArrivesForOther(all: Buffer, on: bool, s: State, f: GenericFilter, c: ChanId,
      m: GenericMessage, k: FilterKey)
    requires WaiterServed(all, on, s, f, c) && SomeMatch(s.filters, m) && !WaitsAt(s, c, k)
    requires k in s.filters && s.filters[k].IsMatch(m) && NextArrive(s, m, k).Running?
    ensures WaiterServed(all + [m], on, NextArrive(s, m, k).state, f, c)
  {
    var s' := NextArrive(s, m, k).state;
    var d := ChanOf(s.subscribers[k]).value;
    assert !f.IsMatch(m);
    OneServed(s, d, m, s.messages);
    FeedOther(all, on, s, f, c, d, [m], s.messages);
    FedSkips(all, on, Serve(s, d, [m], s.messages), s', f, c, m);
    OtherSlotsStay(on && Select(f, all) == [], s, s', f, c, k);
  }

  lemma {:induction false} FedSkips(all: Buffer, on: bool, s: State, s': State, f: GenericFilter, c: ChanId,
      m: GenericMessage)
    requires WaiterFed(all, on, s, f, c) && !f.IsMatch(m)
    requires s'.messages == s.messages && s'.deliveries == s.deliveries && s'.closed == s.closed
    ensures WaiterFed(all + [m], on, s', f, c) && Select(f, all + [m]) == Select(f, all)
  {
    Snoc(f, all, m);
  }

  lemma {:induction false} OtherSlotsStay(waits: bool, s: State, s': State, f: GenericFilter, c: ChanId, k: FilterKey)
    requires WaiterSlots(waits, s, f, c) && k in s.filters && !WaitsAt(s, c, k)
    requires s' == s.(deliveries := s'.deliveries) || s' == Unregister(s, k).(deliveries := s'.deliveries)
    ensures WaiterSlots(waits, s', f, c)
  {
    if waits {
      var j :| WaitsAt(s, c, j);
      assert WaitsAt(s', c, j);
    }
    assert forall j :: WaitsAt(s', c, j) ==> WaitsAt(s, c, j);
    assert forall j :: j in s'.filters ==> j in s.filters && s'.filters[j] == s.filters[j];
  }

  // ----- runs -----

  /** The subscription on `c` is a pull with the filter `f` whose receiver stays, and every other subscription has a
      filter apart from `f`. */
  predicate LoneWaiter(steps: seq<Step>, f: GenericFilter, c: ChanId) {
    forall i :: 0 <= i < |steps| ==>
      match steps[i].event
      case Pull(g, d) => if d == c then g == f else Apart(f, g)
      case Listen(g, d) => d != c && Apart(f, g)
      case Close(d) => d != c
      case Arrive(_) => true
  }

  lemma {:induction false} WaiterIsServed(steps: seq<Step>, f: GenericFilter, c: ChanId)
    requires FreshChans(steps) && Exec(Repaired, steps).Running? && LoneWaiter(steps, f, c)
    ensures WaiterServed(Arrivals(steps), Lookup(steps, c).Some?, Exec(Repaired, steps).state, f, c)
  {
    if steps != [] {
      var n := |steps| - 1;
      var s := Exec(Repaired, steps[..n]).state;
      var k := steps[n].key;
      var all, on := Arrivals(steps[..n]), Lookup(steps[..n], c).Some?;
      assert LoneWaiter(steps[..n], f, c) by {
        assert forall i :: 0 <= i < n ==> steps[..n][i] == steps[i];
      }
      WaiterIsServed(steps[..n], f, c);
      match steps[n].event
      case Pull(g, d) =>
        if d == c {
          WaiterPulls(all, s, f, c, k);
        } else {
          OtherPulls(all, on, s, f, c, g, d, k);
        }
        assert Arrivals(steps) == all;
      case Listen(g, d) =>
        OtherListens(all, on, s, f, c, g, d, k);
        assert Arrivals(steps) == all;
      case Arrive(m) =>
        if !SomeMatch(s.filters, m) {
          ArrivesUnwanted(all, on, s, f, c, m, k);
        } else if WaitsAt(s, c, k) {
          ArrivesForWaiter(all, on, s, f, c, m, k);
        } else {
          ArrivesForOther(all, on, s, f, c, m, k);
        }
      case Close(d) =>
        SlotsStay(on && Select(f, all) == [], s, s.(closed := s.closed + {d}), f, c);
        assert Arrivals(steps) == all;
    }
  }

  /** A one-shot whose receiver stays and whose filter no other subscription overlaps gets exactly the earliest
      matching message of the whole run, if there is one, whether it came before the subscription or after; all
      later ones are buffered. */
  lemma {:induction false} LoneWaiterGetsEarliest(mode: Mode, steps: seq<Step>, f: GenericFilter, c: ChanId)
    requires FreshChans(steps) && Exec(mode, steps).Running? && LoneWaiter(steps, f, c) && Lookup(steps, c).Some?
    requires mode == Repaired || DrainsOne(mode, steps)
    ensures Log(Exec(mode, steps).state.deliveries, c) == Head(Select(f, Arrivals(steps)))
    ensures Select(f, Exec(mode, steps).state.messages) == Tail(Select(f, Arrivals(steps)))
  {
    if mode == AsWritten {
      ModesAgree(mode, steps);
    }
    WaiterIsServed(steps, f, c);
  }
}
