/** Device traffic and normal traffic do not disturb each other, and a stream nobody competes with gets
    everything it asked for. */
module RouterIsolation {
  import opened Common
  import opened Messages
  import opened Drain
  import opened Router
  import opened RouterSafety
  import opened RouterDelivery
  import Proto
  import Removal

  // ----- projection onto one kind -----

  function OfKind(ms: Buffer, kind: MessageKind): Buffer {
    if ms == [] then []
    else
      var front, m := ms[..|ms| - 1], ms[|ms| - 1];
      if m.kind == kind then OfKind(front, kind) + [m] else OfKind(front, kind)
  }

  function SentOfKind(d: seq<Delivery>, kind: MessageKind): seq<Delivery> {
    if d == [] then []
    else
      var front, x := d[..|d| - 1], d[|d| - 1];
      if x.msg.kind == kind then SentOfKind(front, kind) + [x] else SentOfKind(front, kind)
  }

  function FiltersOfKind(filters: map<FilterKey, GenericFilter>, kind: MessageKind): map<FilterKey, GenericFilter> {
    map k | k in filters && filters[k].kind == kind :: filters[k]
  }

  function SubscribersOfKind(filters: map<FilterKey, GenericFilter>, subs: map<FilterKey, Subscriber>,
      kind: MessageKind): map<FilterKey, Subscriber>
  {
    map k | k in subs && k in filters && filters[k].kind == kind :: subs[k]
  }

  function Project(s: State, kind: MessageKind): State {
    State(
      OfKind(s.messages, kind),
      FiltersOfKind(s.filters, kind),
      SubscribersOfKind(s.filters, s.subscribers, kind),
      SentOfKind(s.deliveries, kind),
      s.closed)
  }

  predicate EventOfKind(e: Event, kind: MessageKind) {
    match e
    case Pull(f, _) => f.kind == kind
    case Listen(f, _) => f.kind == kind
    case Arrive(m) => m.kind == kind
    case Close(_) => true
  }

  function StepsOfKind(steps: seq<Step>, kind: MessageKind): seq<Step> {
    if steps == [] then []
    else
      StepsOfKind(steps[..|steps| - 1], kind)
      + (if EventOfKind(steps[|steps| - 1].event, kind) then [steps[|steps| - 1]] else [])
  }

  lemma {:induction false} OfKindAppend(a: Buffer, b: Buffer, kind: MessageKind)
    ensures OfKind(a + b, kind) == OfKind(a, kind) + OfKind(b, kind)
  {
    if b == [] {
      assert a + b == a;
    } else {
      assert (a + b)[..|a + b| - 1] == a + b[..|b| - 1];
      OfKindAppend(a, b[..|b| - 1], kind);
    }
  }

  lemma {:induction false} OfKindOne(m: GenericMessage, kind: MessageKind)
    ensures OfKind([m], kind) == if m.kind == kind then [m] else []
  {
    assert [m][..0] == [];
  }

  lemma {:induction false} SentOfKindAppend(a: seq<Delivery>, b: seq<Delivery>, kind: MessageKind)
    ensures SentOfKind(a + b, kind) == SentOfKind(a, kind) + SentOfKind(b, kind)
  {
    if b == [] {
      assert a + b == a;
    } else {
      assert (a + b)[..|a + b| - 1] == a + b[..|b| - 1];
      SentOfKindAppend(a, b[..|b| - 1], kind);
    }
  }

  lemma {:induction false} SentOfKindSnoc(d: seq<Delivery>, x: Delivery, kind: MessageKind)
    ensures SentOfKind(d + [x], kind) == if x.msg.kind == kind then SentOfKind(d, kind) + [x] else SentOfKind(d, kind)
  {
    assert (d + [x])[..|d + [x]| - 1] == d;
  }

  lemma {:induction false} SendAllSnoc(c: ChanId, front: Buffer, m: GenericMessage)
    ensures SendAll(c, front + [m]) == SendAll(c, front) + [Delivery(c, m)]
  {
  }

  /** Messages sent together to one subscriber are all of its kind. */
  lemma {:induction false} SendAllOfKind(c: ChanId, ms: Buffer, kind: MessageKind, k: MessageKind)
    requires forall m :: m in ms ==> m.kind == k
    ensures SentOfKind(SendAll(c, ms), kind) == if k == kind then SendAll(c, ms) else []
  {
    if ms != [] {
      var front, m := ms[..|ms| - 1], ms[|ms| - 1];
      assert ms == front + [m];
      SendAllOfKind(c, front, kind, k);
      SendAllSnoc(c, front, m);
      SentOfKindSnoc(SendAll(c, front), Delivery(c, m), kind);
    }
  }

  lemma {:induction false} PullFirstOfKind(f: GenericFilter, ms: Buffer, kind: MessageKind)
    ensures PullFirst(f, ms).Some? && f.kind != kind ==> OfKind(PullFirst(f, ms).value.1, kind) == OfKind(ms, kind)
    ensures f.kind == kind ==>
      PullFirst(f, OfKind(ms, kind)) ==
      match PullFirst(f, ms) case None => None case Some((m, rest)) => Some((m, OfKind(rest, kind)))
  {
    if ms != [] {
      var head, tail := ms[0], ms[1..];
      assert ms == [head] + tail;
      OfKindAppend([head], tail, kind);
      OfKindOne(head, kind);
      PullFirstOfKind(f, tail, kind);
      assert [] + OfKind(tail, kind) == OfKind(tail, kind);
      if f.IsMatch(head) {
        assert f.kind == kind ==> OfKind(ms, kind)[1..] == OfKind(tail, kind);
      } else if PullFirst(f, tail).Some? {
        var (m, rest) := PullFirst(f, tail).value;
        OfKindAppend([head], rest, kind);
        assert [] + OfKind(rest, kind) == OfKind(rest, kind);
        assert f.kind == kind && head.kind == kind ==> OfKind(ms, kind)[1..] == OfKind(tail, kind);
      } else {
        assert f.kind == kind && head.kind == kind ==> OfKind(ms, kind)[1..] == OfKind(tail, kind);
      }
    }
  }

  lemma {:induction false} OfKindSnoc(a: Buffer, m: GenericMessage, kind: MessageKind)
    ensures OfKind(a + [m], kind) == if m.kind == kind then OfKind(a, kind) + [m] else OfKind(a, kind)
  {
    assert (a + [m])[..|a + [m]| - 1] == a;
  }

  lemma {:induction false} RejectOtherKind(f: GenericFilter, ms: Buffer, kind: MessageKind)
    requires f.kind != kind
    ensures OfKind(Reject(f, ms), kind) == OfKind(ms, kind)
  {
    if ms != [] {
      var front, m := ms[..|ms| - 1], ms[|ms| - 1];
      RejectOtherKind(f, front, kind);
      OfKindSnoc(Reject(f, front), m, kind);
    }
  }

  lemma {:induction false} SelectSameKind(f: GenericFilter, ms: Buffer)
    ensures Select(f, OfKind(ms, f.kind)) == Select(f, ms)
    ensures Reject(f, OfKind(ms, f.kind)) == OfKind(Reject(f, ms), f.kind)
  {
    if ms != [] {
      var front, m := ms[..|ms| - 1], ms[|ms| - 1];
      SelectSameKind(f, front);
      Snoc(f, OfKind(front, f.kind), m);
      OfKindSnoc(Reject(f, front), m, f.kind);
    }
  }

  lemma {:induction false} SelectOfKind(f: GenericFilter, ms: Buffer, kind: MessageKind)
    ensures f.kind != kind ==> OfKind(Reject(f, ms), kind) == OfKind(ms, kind)
    ensures f.kind == kind ==>
      && Select(f, OfKind(ms, kind)) == Select(f, ms)
      && Reject(f, OfKind(ms, kind)) == OfKind(Reject(f, ms), kind)
  {
    if f.kind == kind {
      SelectSameKind(f, ms);
    } else {
      RejectOtherKind(f, ms, kind);
    }
  }

  // ----- one step -----

  lemma {:induction false} FiltersOfKindPut(filters: map<FilterKey, GenericFilter>, k: FilterKey, f: GenericFilter,
      kind: MessageKind)
    requires k !in filters
    ensures FiltersOfKind(filters[k := f], kind)
            == if f.kind == kind then FiltersOfKind(filters, kind)[k := f] else FiltersOfKind(filters, kind)
  {
  }

  lemma {:induction false} SubscribersOfKindPut(filters: map<FilterKey, GenericFilter>,
      subs: map<FilterKey, Subscriber>, k: FilterKey, f: GenericFilter, sub: Subscriber, kind: MessageKind)
    requires k !in filters && k !in subs
    ensures SubscribersOfKind(filters[k := f], subs[k := sub], kind)
            == if f.kind == kind then SubscribersOfKind(filters, subs, kind)[k := sub]
               else SubscribersOfKind(filters, subs, kind)
  {
  }

  lemma {:induction false} ProjectRegister(s: State, k: FilterKey, f: GenericFilter, sub: Subscriber, kind: MessageKind)
    requires k !in s.filters && s.filters.Keys == s.subscribers.Keys
    ensures Project(Register(s, k, f, sub), kind)
            == if f.kind == kind then Register(Project(s, kind), k, f, sub) else Project(s, kind)
  {
    FiltersOfKindPut(s.filters, k, f, kind);
    SubscribersOfKindPut(s.filters, s.subscribers, k, f, sub, kind);
  }

  /** Sending messages of one kind and leaving `rest` in the buffer. */
  function Serve(s: State, c: ChanId, ms: Buffer, rest: Buffer): State {
    s.(messages := rest, deliveries := s.deliveries + SendAll(c, ms))
  }

  lemma {:induction false} ProjectServe(s: State, c: ChanId, ms: Buffer, rest: Buffer, kind: MessageKind,
      k: MessageKind)
    requires forall m :: m in ms ==> m.kind == k
    ensures Project(Serve(s, c, ms, rest), kind)
            == Serve(Project(s, kind), c, if k == kind then ms else [], OfKind(rest, kind))
  {
    SentOfKindAppend(s.deliveries, SendAll(c, ms), kind);
    SendAllOfKind(c, ms, kind, k);
    assert SendAll(c, []) == [];
  }

  lemma {:induction false} PullOfKind(s: State, f: GenericFilter, c: ChanId, k: FilterKey, kind: MessageKind)
    requires k !in s.filters && s.filters.Keys == s.subscribers.Keys
    ensures NextPull(s, f, c, k).Running?
    ensures f.kind == kind ==> NextPull(Project(s, kind), f, c, k) == Running(Project(NextPull(s, f, c, k).state, kind))
    ensures f.kind != kind ==> Project(NextPull(s, f, c, k).state, kind) == Project(s, kind)
  {
    PullFirstOfKind(f, s.messages, kind);
    match PullFirst(f, s.messages)
    case None => ProjectRegister(s, k, f, Oneshot(Some(c)), kind);
    case Some((m, rest)) =>
      PullFirstProperties(f, s.messages);
      if c in s.closed {
        OfKindSnoc(rest, m, kind);
        var back := s.(messages := rest + [m]);
        ProjectRegister(back, k, f, Oneshot(None), kind);
        assert Project(back, kind) == Project(s, kind).(messages := OfKind(rest + [m], kind));
        assert f.kind != kind ==> OfKind(rest + [m], kind) == OfKind(s.messages, kind);
      } else {
        ProjectServe(s, c, [m], rest, kind, f.kind);
        assert SendAll(c, [m]) == [Delivery(c, m)];
        assert NextPull(s, f, c, k) == Running(Serve(s, c, [m], rest));
        assert f.kind != kind ==> SentOfKind(s.deliveries, kind) + SendAll(c, []) == SentOfKind(s.deliveries, kind);
      }
  }

  lemma {:induction false} ListenOfKind(s: State, f: GenericFilter, c: ChanId, k: FilterKey, kind: MessageKind)
    requires k !in s.filters && s.filters.Keys == s.subscribers.Keys
    requires NextListen(Repaired, s, f, c, k).Running?
    ensures f.kind == kind ==>
      NextListen(Repaired, Project(s, kind), f, c, k) == Running(Project(NextListen(Repaired, s, f, c, k).state, kind))
    ensures f.kind != kind ==> Project(NextListen(Repaired, s, f, c, k).state, kind) == Project(s, kind)
  {
    var taken, rest := Select(f, s.messages), Reject(f, s.messages);
    SelectProperties(f, s.messages);
    SelectProperties(f, OfKind(s.messages, kind));
    SelectOfKind(f, s.messages, kind);
    ProjectServe(s, c, taken, rest, kind, f.kind);
    ProjectRegister(Serve(s, c, taken, rest), k, f, Stream(c), kind);
    assert f.kind != kind ==> SentOfKind(s.deliveries, kind) + SendAll(c, []) == SentOfKind(s.deliveries, kind);
  }

  lemma {:induction false} ArriveOfKind(s: State, m: GenericMessage, k: FilterKey, kind: MessageKind)
    requires s.filters.Keys == s.subscribers.Keys && Enabled(s, Step(Arrive(m), k)) && NextArrive(s, m, k).Running?
    ensures m.kind == kind ==>
      && Enabled(Project(s, kind), Step(Arrive(m), k))
      && NextArrive(Project(s, kind), m, k) == Running(Project(NextArrive(s, m, k).state, kind))
    ensures m.kind != kind ==> Project(NextArrive(s, m, k).state, kind) == Project(s, kind)
  {
    var p := Project(s, kind);
    if SomeMatch(s.filters, m) {
      if m.kind == kind {
        assert k in p.filters && p.filters[k].IsMatch(m);
        assert p.subscribers[k] == s.subscribers[k];
      }
      ForwardOfKind(s, m, k, kind);
    } else {
      OfKindSnoc(s.messages, m, kind);
      assert !SomeMatch(p.filters, m);
    }
  }

  lemma {:induction false} ForwardOfKind(s: State, m: GenericMessage, k: FilterKey, kind: MessageKind)
    requires s.filters.Keys == s.subscribers.Keys && NextArrive(s, m, k).Running?
    requires SomeMatch(s.filters, m) && k in s.filters && s.filters[k].IsMatch(m)
    ensures var c := ChanOf(s.subscribers[k]).value;
            var q := if m.kind == kind then Serve(Project(s, kind), c, [m], OfKind(s.messages, kind))
                     else Project(s, kind);
            Project(NextArrive(s, m, k).state, kind)
            == if s.subscribers[k].Oneshot? && m.kind == kind then Unregister(q, k) else q
    ensures SendAll(ChanOf(s.subscribers[k]).value, [m]) == [Delivery(ChanOf(s.subscribers[k]).value, m)]
  {
    var c := ChanOf(s.subscribers[k]).value;
    assert SendAll(c, [m]) == [Delivery(c, m)];
    var s' := Serve(s, c, [m], s.messages);
    ProjectServe(s, c, [m], s.messages, kind, m.kind);
    assert m.kind != kind ==> SentOfKind(s.deliveries, kind) + SendAll(c, []) == SentOfKind(s.deliveries, kind);
    if s.subscribers[k].Oneshot? {
      ProjectUnregister(s', k, kind);
      assert NextArrive(s, m, k) == Running(Unregister(s', k));
    } else {
      assert NextArrive(s, m, k) == Running(s');
    }
  }

  lemma {:induction false} ProjectUnregister(s: State, k: FilterKey, kind: MessageKind)
    requires k in s.filters && s.filters.Keys == s.subscribers.Keys
    ensures Project(Unregister(s, k), kind)
            == if s.filters[k].kind == kind then Unregister(Project(s, kind), k) else Project(s, kind)
  {
    assert FiltersOfKind(s.filters - {k}, kind) == FiltersOfKind(s.filters, kind) - {k};
    assert SubscribersOfKind(s.filters - {k}, s.subscribers - {k}, kind)
      == SubscribersOfKind(s.filters, s.subscribers, kind) - {k};
    if s.filters[k].kind != kind {
      assert FiltersOfKind(s.filters, kind) - {k} == FiltersOfKind(s.filters, kind);
      assert SubscribersOfKind(s.filters, s.subscribers, kind) - {k}
        == SubscribersOfKind(s.filters, s.subscribers, kind);
    }
  }

  lemma {:induction false} StepOfKind(s: State, step: Step, kind: MessageKind)
    requires s.filters.Keys == s.subscribers.Keys && Enabled(s, step) && Next(Repaired, s, step).Running?
    ensures EventOfKind(step.event, kind) ==>
      && Enabled(Project(s, kind), step)
      && Next(Repaired, Project(s, kind), step) == Running(Project(Next(Repaired, s, step).state, kind))
    ensures !EventOfKind(step.event, kind) ==> Project(Next(Repaired, s, step).state, kind) == Project(s, kind)
  {
    match step.event
    case Pull(f, c) => PullOfKind(s, f, c, step.key, kind);
    case Listen(f, c) => ListenOfKind(s, f, c, step.key, kind);
    case Arrive(m) => ArriveOfKind(s, m, step.key, kind);
    case Close(c) =>
  }

  /** Non-interference: what a run over mixed traffic does to one kind of messages, filters and deliveries is
      what the steps of that kind alone do. */
  lemma {:induction false} KindsDoNotInterfere(steps: seq<Step>, kind: MessageKind)
    requires Exec(Repaired, steps).Running?
    ensures Exec(Repaired, StepsOfKind(steps, kind)) == Running(Project(Exec(Repaired, steps).state, kind))
  {
    if steps == [] {
      assert Project(INIT, kind) == INIT;
    } else {
      var n := |steps| - 1;
      KindsDoNotInterfere(steps[..n], kind);
      SlotMapsAgree(Repaired, steps[..n]);
      StepOfKind(Exec(Repaired, steps[..n]).state, steps[n], kind);
      var front := StepsOfKind(steps[..n], kind);
      if EventOfKind(steps[n].event, kind) {
        ExecSnoc(Repaired, front, steps[n]);
      } else {
        assert StepsOfKind(steps, kind) == front;
      }
    }
  }

  /** Every receiver of one kind gets exactly what it would get without the other kind's traffic. */
  lemma {:induction false} ReceiversDoNotNotice(steps: seq<Step>, c: ChanId)
    requires FreshChans(steps) && Exec(Repaired, steps).Running? && Lookup(steps, c).Some?
    ensures var alone := Exec(Repaired, StepsOfKind(steps, Lookup(steps, c).value.filter.kind));
            alone.Running? && Log(alone.state.deliveries, c) == Log(Exec(Repaired, steps).state.deliveries, c)
  {
    var kind := Lookup(steps, c).value.filter.kind;
    var d := Exec(Repaired, steps).state.deliveries;
    KindsDoNotInterfere(steps, kind);
    DeliveredMatchIff(Repaired, steps, c);
    LogOfKind(d, c, kind);
  }

  lemma {:induction false} LogOfKind(d: seq<Delivery>, c: ChanId, kind: MessageKind)
    requires forall m :: m in Log(d, c) ==> m.kind == kind
    ensures Log(SentOfKind(d, kind), c) == Log(d, c)
  {
    if d != [] {
      var last := d[|d| - 1];
      var front := SentOfKind(d[..|d| - 1], kind);
      LogOfKind(d[..|d| - 1], c, kind);
      assert last.chan == c ==> Log(d, c)[|Log(d, c)| - 1] == last.msg;
      if last.msg.kind == kind {
        assert (front + [last])[..|front|] == front;
      } else {
        assert SentOfKind(d, kind) == front;
      }
    }
  }

  // ----- a stream without competitors -----

  /** Two filters that contradict each other in some field. */
  predicate Apart(f: GenericFilter, g: GenericFilter) {
    || f.kind != g.kind
    || (f.sourceAddr.Some? && g.sourceAddr.Some? && f.sourceAddr != g.sourceAddr)
    || (f.opcode.Some? && g.opcode.Some? && f.opcode != g.opcode)
    || (f.index.Some? && g.index.Some? && f.index != g.index)
  }

  function Pick<T>(a: Option<T>, b: Option<T>, default: T): T {
    if a.Some? then a.value else if b.Some? then b.value else default
  }

  lemma {:induction false} ApartIff(f: GenericFilter, g: GenericFilter)
    ensures Apart(f, g) <==> forall m :: f.IsMatch(m) ==> !g.IsMatch(m)
  {
    if !Apart(f, g) {
      var content := Proto.Message(Pick(f.opcode, g.opcode, Proto.Sig1(0)), []);
      var m := GenericMessage(Pick(f.sourceAddr, g.sourceAddr, 0), 0, f.kind, content, Pick(f.index, g.index, 0), 0);
      assert f.IsMatch(m) && g.IsMatch(m);
    }
  }

  /** Every subscription but the one on `c` has a filter apart from `f`. */
  predicate Unrivalled(steps: seq<Step>, f: GenericFilter, c: ChanId) {
    forall i :: 0 <= i < |steps| ==>
      match steps[i].event
      case Pull(g, d) => d != c && Apart(f, g)
      case Listen(g, d) => if d == c then g == f else Apart(f, g)
      case _ => true
  }

  lemma {:induction false} SelectAppend(f: GenericFilter, a: Buffer, b: Buffer)
    ensures Select(f, a + b) == Select(f, a) + Select(f, b)
  {
    if b == [] {
      assert a + b == a;
    } else {
      var m := b[|b| - 1];
      assert a + b == (a + b[..|b| - 1]) + [m];
      SelectAppend(f, a, b[..|b| - 1]);
      Snoc(f, a + b[..|b| - 1], m);
    }
  }

  lemma {:induction false} PullLeavesOthers(f: GenericFilter, g: GenericFilter, ms: Buffer)
    requires Apart(f, g) && PullFirst(g, ms).Some?
    ensures Select(f, PullFirst(g, ms).value.1) == Select(f, ms)
  {
    assert ms == [ms[0]] + ms[1..];
    SelectAppend(f, [ms[0]], ms[1..]);
    Snoc(f, [], ms[0]);
    assert [] + [ms[0]] == [ms[0]];
    if g.IsMatch(ms[0]) {
      assert Select(f, ms) == [] + Select(f, ms[1..]);
    } else {
      PullLeavesOthers(f, g, ms[1..]);
      SelectAppend(f, [ms[0]], PullFirst(g, ms[1..]).value.1);
    }
  }

  lemma {:induction false} RejectLeavesOthers(f: GenericFilter, g: GenericFilter, ms: Buffer)
    ensures Apart(f, g) ==> Select(f, Reject(g, ms)) == Select(f, ms)
    ensures f == g ==> Select(f, Reject(g, ms)) == []
  {
    if ms != [] {
      var front, m := ms[..|ms| - 1], ms[|ms| - 1];
      RejectLeavesOthers(f, g, front);
      Snoc(f, Reject(g, front), m);
    }
  }

  /** Before its subscription (`on`) everything the stream wants is buffered; afterwards it has everything. */
  predicate StreamFed(all: Buffer, on: bool, s: State, f: GenericFilter, c: ChanId) {
    && Select(f, s.messages) == (if on then [] else Select(f, all))
    && (on ==> Log(s.deliveries, c) == Select(f, all))
  }

  /** The stream is registered, under its own filter and no other. */
  ghost predicate StreamSlot(on: bool, s: State, f: GenericFilter, c: ChanId) {
    && s.filters.Keys == s.subscribers.Keys
    && (on ==> exists k :: k in s.subscribers && s.subscribers[k] == Stream(c))
    && forall k :: k in s.filters ==>
         if s.subscribers[k] == Stream(c) then on && s.filters[k] == f else Apart(f, s.filters[k])
  }

  ghost predicate StreamServed(all: Buffer, on: bool, s: State, f: GenericFilter, c: ChanId) {
    StreamFed(all, on, s, f, c) && StreamSlot(on, s, f, c)
  }

  lemma {:induction false} StreamRegister(all: Buffer, on: bool, s: State, f: GenericFilter, c: ChanId,
      g: GenericFilter, sub: Subscriber, k: FilterKey)
    requires StreamServed(all, on, s, f, c) && k !in s.filters && Apart(f, g) && sub != Stream(c)
    ensures StreamServed(all, on, Register(s, k, g, sub), f, c)
  {
    if on {
      var j :| j in s.subscribers && s.subscribers[j] == Stream(c);
      assert Register(s, k, g, sub).subscribers[j] == Stream(c);
    }
  }

  lemma {:induction false} StreamPull(all: Buffer, on: bool, s: State, f: GenericFilter, c: ChanId, g: GenericFilter,
      d: ChanId, k: FilterKey)
    requires StreamServed(all, on, s, f, c) && k !in s.filters && d != c && Apart(f, g)
    ensures StreamServed(all, on, NextPull(s, g, d, k).state, f, c)
  {
    match PullFirst(g, s.messages)
    case None => StreamRegister(all, on, s, f, c, g, Oneshot(Some(d)), k);
    case Some((m, rest)) =>
      PullFirstProperties(g, s.messages);
      PullLeavesOthers(f, g, s.messages);
      if d in s.closed {
        Snoc(f, rest, m);
        assert !f.IsMatch(m);
        StreamRegister(all, on, s.(messages := rest + [m]), f, c, g, Oneshot(None), k);
      } else {
        LogAppend(s.deliveries, [Delivery(d, m)], c);
        SendOneLog(d, m, c);
      }
  }

  lemma {:induction false} StreamListenOther(all: Buffer, on: bool, s: State, f: GenericFilter, c: ChanId,
      g: GenericFilter, d: ChanId, k: FilterKey)
    requires StreamServed(all, on, s, f, c) && k !in s.filters && d != c && Apart(f, g)
    requires NextListen(Repaired, s, g, d, k).Running?
    ensures StreamServed(all, on, NextListen(Repaired, s, g, d, k).state, f, c)
  {
    var taken, rest := Select(g, s.messages), Reject(g, s.messages);
    RejectLeavesOthers(f, g, s.messages);
    ServeOther(all, on, s, f, c, d, taken, rest);
    StreamRegister(all, on, Serve(s, d, taken, rest), f, c, g, Stream(d), k);
  }

  /** Messages the stream does not want go to another receiver. */
  lemma {:induction false} ServeOther(all: Buffer, on: bool, s: State, f: GenericFilter, c: ChanId, d: ChanId,
      taken: Buffer, rest: Buffer)
    requires StreamServed(all, on, s, f, c) && d != c && Select(f, rest) == Select(f, s.messages)
    ensures StreamServed(all, on, Serve(s, d, taken, rest), f, c)
  {
    LogAppend(s.deliveries, SendAll(d, taken), c);
    SendAllLog(d, taken, c);
    assert Log(s.deliveries, c) + [] == Log(s.deliveries, c);
  }

  lemma {:induction false} StreamListen(all: Buffer, s: State, f: GenericFilter, c: ChanId, k: FilterKey)
    requires StreamServed(all, false, s, f, c) && k !in s.filters && Log(s.deliveries, c) == []
    requires NextListen(Repaired, s, f, c, k).Running?
    ensures StreamServed(all, true, NextListen(Repaired, s, f, c, k).state, f, c)
  {
    var taken, rest := Select(f, s.messages), Reject(f, s.messages);
    var s' := NextListen(Repaired, s, f, c, k).state;
    RejectLeavesOthers(f, f, s.messages);
    LogAppend(s.deliveries, SendAll(c, taken), c);
    SendAllLog(c, taken, c);
    assert s'.subscribers[k] == Stream(c);
  }

  lemma {:induction false} StreamArrive(all: Buffer, on: bool, s: State, f: GenericFilter, c: ChanId,
      m: GenericMessage, k: FilterKey)
    requires StreamServed(all, on, s, f, c) && Enabled(s, Step(Arrive(m), k)) && NextArrive(s, m, k).Running?
    requires forall j :: j in s.subscribers && ChanOf(s.subscribers[j]) == Some(c) ==> s.subscribers[j] == Stream(c)
    ensures StreamServed(all + [m], on, NextArrive(s, m, k).state, f, c)
  {
    if SomeMatch(s.filters, m) {
      StreamForward(all, on, s, f, c, m, k);
    } else {
      Snoc(f, all, m);
      Snoc(f, s.messages, m);
      if on {
        var j :| j in s.subscribers && s.subscribers[j] == Stream(c);
        assert j in s.filters && s.filters[j] == f;
      }
    }
  }

  /** What a forwarded message does: one delivery, and at most its own one-shot goes. */
  lemma {:induction false} ForwardShape(s: State, m: GenericMessage, k: FilterKey)
    requires NextArrive(s, m, k).Running? && SomeMatch(s.filters, m) && s.filters.Keys == s.subscribers.Keys
    requires k in s.filters
    ensures var s' := NextArrive(s, m, k).state;
      && s'.messages == s.messages && s'.filters.Keys == s'.subscribers.Keys
      && ChanOf(s.subscribers[k]).Some?
      && s'.deliveries == s.deliveries + [Delivery(ChanOf(s.subscribers[k]).value, m)]
      && (forall j :: j in s'.subscribers ==>
            j in s.subscribers && s'.subscribers[j] == s.subscribers[j] && s'.filters[j] == s.filters[j])
      && (forall j :: j in s.subscribers && s.subscribers[j].Stream? ==> j in s'.subscribers)
  {
  }

  lemma {:induction false} StreamForward(all: Buffer, on: bool, s: State, f: GenericFilter, c: ChanId,
      m: GenericMessage, k: FilterKey)
    requires StreamServed(all, on, s, f, c) && NextArrive(s, m, k).Running? && SomeMatch(s.filters, m)
    requires k in s.filters && s.filters[k].IsMatch(m)
    requires forall j :: j in s.subscribers && ChanOf(s.subscribers[j]) == Some(c) ==> s.subscribers[j] == Stream(c)
    ensures StreamServed(all + [m], on, NextArrive(s, m, k).state, f, c)
  {
    var s' := NextArrive(s, m, k).state;
    ForwardShape(s, m, k);
    assert (ChanOf(s.subscribers[k]) == Some(c)) <==> (s.subscribers[k] == Stream(c));
    assert s.subscribers[k] == Stream(c) ==> on && f.IsMatch(m);
    assert s.subscribers[k] != Stream(c) ==> Apart(f, s.filters[k]) && !f.IsMatch(m);
    ForwardFeeds(all, on, s, s', f, c, m, ChanOf(s.subscribers[k]).value);
    ForwardKeepsSlot(on, s, s', f, c);
  }

  lemma {:induction false} ForwardFeeds(all: Buffer, on: bool, s: State, s': State, f: GenericFilter, c: ChanId,
      m: GenericMessage, d: ChanId)
    requires StreamFed(all, on, s, f, c) && s'.messages == s.messages
    requires s'.deliveries == s.deliveries + [Delivery(d, m)]
    requires if d == c then on && f.IsMatch(m) else !f.IsMatch(m)
    ensures StreamFed(all + [m], on, s', f, c)
  {
    Snoc(f, all, m);
    LogAppend(s.deliveries, [Delivery(d, m)], c);
    SendOneLog(d, m, c);
  }

  lemma {:induction false} ForwardKeepsSlot(on: bool, s: State, s': State, f: GenericFilter, c: ChanId)
    requires StreamSlot(on, s, f, c) && s'.filters.Keys == s'.subscribers.Keys
    requires forall j :: j in s'.subscribers ==>
      j in s.subscribers && s'.subscribers[j] == s.subscribers[j] && s'.filters[j] == s.filters[j]
    requires forall j :: j in s.subscribers && s.subscribers[j].Stream? ==> j in s'.subscribers
    ensures StreamSlot(on, s', f, c)
  {
    if on {
      var j :| j in s.subscribers && s.subscribers[j] == Stream(c);
      assert j in s'.subscribers && s'.subscribers[j] == Stream(c);
    }
  }

  /** No one-shot shares the stream's channel. */
  lemma {:induction false} ChannelIsTheStreams(steps: seq<Step>, s: State, f: GenericFilter, c: ChanId)
    requires RegistrationsFit(steps, s) && Unrivalled(steps, f, c)
    ensures forall j :: j in s.subscribers && ChanOf(s.subscribers[j]) == Some(c) ==> s.subscribers[j] == Stream(c)
  {
    forall j | j in s.subscribers && ChanOf(s.subscribers[j]) == Some(c) ensures s.subscribers[j] == Stream(c) {
      assert FitsAt(steps, s, j);
      NoPullOn(steps, f, c);
    }
  }

  lemma {:induction false} NoPullOn(steps: seq<Step>, f: GenericFilter, c: ChanId)
    requires Unrivalled(steps, f, c)
    ensures Lookup(steps, c).Some? ==> Lookup(steps, c).value.Listen?
  {
    if steps != [] {
      assert Unrivalled(steps[..|steps| - 1], f, c) by {
        assert forall i :: 0 <= i < |steps| - 1 ==> steps[..|steps| - 1][i] == steps[i];
      }
      NoPullOn(steps[..|steps| - 1], f, c);
    }
  }

  /** A stream whose filter no other subscription overlaps gets every matching message of the whole run, once
      each and in order of arrival, including those that came before it subscribed. */
  lemma {:induction false} UnrivalledStreamGetsAll(steps: seq<Step>, f: GenericFilter, c: ChanId)
    requires FreshChans(steps) && Exec(Repaired, steps).Running? && Unrivalled(steps, f, c)
    ensures StreamServed(Arrivals(steps), Lookup(steps, c).Some?, Exec(Repaired, steps).state, f, c)
    ensures Lookup(steps, c).Some? ==> Log(Exec(Repaired, steps).state.deliveries, c) == Select(f, Arrivals(steps))
  {
    if steps != [] {
      var n := |steps| - 1;
      var s := Exec(Repaired, steps[..n]).state;
      var k := steps[n].key;
      var all, on := Arrivals(steps[..n]), Lookup(steps[..n], c).Some?;
      assert Unrivalled(steps[..n], f, c) by {
        assert forall i :: 0 <= i < n ==> steps[..n][i] == steps[i];
      }
      UnrivalledStreamGetsAll(steps[..n], f, c);
      ReceiversFit(Repaired, steps[..n]);
      match steps[n].event
      case Pull(g, d) =>
        StreamPull(all, on, s, f, c, g, d, k);
        assert Arrivals(steps) == all;
      case Listen(g, d) =>
        if d == c {
          StreamListen(all, s, f, c, k);
        } else {
          StreamListenOther(all, on, s, f, c, g, d, k);
        }
        assert Arrivals(steps) == all;
      case Arrive(m) =>
        ChannelIsTheStreams(steps[..n], s, f, c);
        StreamArrive(all, on, s, f, c, m, k);
      case Close(_) =>
        assert Arrivals(steps) == all;
    }
  }
}
