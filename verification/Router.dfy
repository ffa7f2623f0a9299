/** The message router as a state machine over its two kinds of step, "subscribe" and "message arrives"
    (the select loop of `MessageQueue::new`, src/mesh/message_queue.rs:187-233). Receivers may go away at any
    time, which is a third kind of step. */
module Router {
  import opened Common
  import opened Messages
  import opened Drain
  import Removal

  type ChanId = nat
  type FilterKey = nat

  /** A registered subscriber; the one-shot cell is emptied when its sender is used. */
  datatype Subscriber = Oneshot(cell: Option<ChanId>) | Stream(chan: ChanId)

  datatype Delivery = Delivery(chan: ChanId, msg: GenericMessage)

  /** The router's own state, and the two observable sides of its channels: everything sent so far, and the
      channels whose receiver is gone. */
  datatype State = State(
    messages: Buffer,
    filters: map<FilterKey, GenericFilter>,
    subscribers: map<FilterKey, Subscriber>,
    deliveries: seq<Delivery>,
    closed: set<ChanId>)

  const INIT := State([], map[], map[], [], {})

  datatype Event =
    | Pull(filter: GenericFilter, chan: ChanId)    // pull_msg: a one-shot waiter
    | Listen(filter: GenericFilter, chan: ChanId)  // subscribe: a stream
    | Arrive(msg: GenericMessage)                  // push_msg
    | Close(chan: ChanId)                          // a receiver is dropped

  /** `key` is the slot the step uses: a free one for a registration, the chosen filter for an arrival. */
  datatype Step = Step(event: Event, key: FilterKey)

  datatype Panic = RemoveOutOfBounds | InconsistentState | ReusedOneshot | ClosedReceiver

  datatype Outcome = Running(state: State) | Panicked(why: Panic) | Illegal

  /** `Repaired` is the variant of `try_pull_many` that removes the indexes it means to. */
  datatype Mode = AsWritten | Repaired

  function DrainBy(mode: Mode, f: GenericFilter, ms: Buffer): Option<(Buffer, Buffer)> {
    if mode == AsWritten then DrainAsWritten(f, ms) else Some((Select(f, ms), Reject(f, ms)))
  }

  function SendAll(chan: ChanId, ms: Buffer): (d: seq<Delivery>)
    ensures |d| == |ms| && forall i :: 0 <= i < |d| ==> d[i] == Delivery(chan, ms[i])
  {
    seq(|ms|, i requires 0 <= i < |ms| => Delivery(chan, ms[i]))
  }

  predicate SomeMatch(filters: map<FilterKey, GenericFilter>, m: GenericMessage) {
    exists k :: k in filters && filters[k].IsMatch(m)
  }

  /** The slot map decides which free slot and which of several matching filters is used; here any will do. */
  predicate Enabled(s: State, step: Step) {
    match step.event
    case Pull(_, _) => step.key !in s.filters
    case Listen(_, _) => step.key !in s.filters
    case Arrive(m) =>
      SomeMatch(s.filters, m) ==> step.key in s.filters && s.filters[step.key].IsMatch(m)
    case Close(_) => true
  }

  function Register(s: State, k: FilterKey, f: GenericFilter, sub: Subscriber): State {
    s.(filters := s.filters[k := f], subscribers := s.subscribers[k := sub])
  }

  function Unregister(s: State, k: FilterKey): State {
    s.(filters := s.filters - {k}, subscribers := s.subscribers - {k})
  }

  function NextPull(s: State, f: GenericFilter, c: ChanId, k: FilterKey): Outcome {
    match PullFirst(f, s.messages)
    case None => Running(Register(s, k, f, Oneshot(Some(c))))
    case Some((m, rest)) =>
      if c in s.closed then Running(Register(s.(messages := rest + [m]), k, f, Oneshot(None)))
      else Running(s.(messages := rest, deliveries := s.deliveries + [Delivery(c, m)]))
  }

  function NextListen(mode: Mode, s: State, f: GenericFilter, c: ChanId, k: FilterKey): Outcome {
    if |MatchIndexes(f, s.messages)| > 0 && c in s.closed then Panicked(ClosedReceiver)
    else
      match DrainBy(mode, f, s.messages)
      case None => Panicked(RemoveOutOfBounds)
      case Some((taken, rest)) =>
        Running(Register(s.(messages := rest, deliveries := s.deliveries + SendAll(c, taken)), k, f, Stream(c)))
  }

  function NextArrive(s: State, m: GenericMessage, k: FilterKey): Outcome {
    if !SomeMatch(s.filters, m) then Running(s.(messages := s.messages + [m]))
    else if k !in s.subscribers then Panicked(InconsistentState)
    else
      match s.subscribers[k]
      case Oneshot(None) => Panicked(ReusedOneshot)
      case Oneshot(Some(c)) =>
        if c in s.closed then Panicked(ClosedReceiver)
        else Running(Unregister(s, k).(deliveries := s.deliveries + [Delivery(c, m)]))
      case Stream(c) =>
        if c in s.closed then Panicked(ClosedReceiver)
        else Running(s.(deliveries := s.deliveries + [Delivery(c, m)]))
  }

  function Next(mode: Mode, s: State, step: Step): Outcome {
    match step.event
    case Pull(f, c) => NextPull(s, f, c, step.key)
    case Listen(f, c) => NextListen(mode, s, f, c, step.key)
    case Arrive(m) => NextArrive(s, m, step.key)
    case Close(c) => Running(s.(closed := s.closed + {c}))
  }

  function After(mode: Mode, o: Outcome, step: Step): Outcome {
    if !o.Running? then o
    else if Enabled(o.state, step) then Next(mode, o.state, step)
    else Illegal
  }

  /** Where a sequence of steps leads from the empty router. */
  function Exec(mode: Mode, steps: seq<Step>): Outcome {
    if steps == [] then Running(INIT)
    else After(mode, Exec(mode, steps[..|steps| - 1]), steps[|steps| - 1])
  }

  lemma {:induction false} ExecSnoc(mode: Mode, front: seq<Step>, step: Step)
    ensures Exec(mode, front + [step]) == After(mode, Exec(mode, front), step)
  {
    assert (front + [step])[..|front + [step]| - 1] == front;
  }

  // ----- what a run did -----

  function Arrivals(steps: seq<Step>): Buffer {
    if steps == [] then []
    else
      Arrivals(steps[..|steps| - 1])
      + (match steps[|steps| - 1].event case Arrive(m) => [m] case _ => [])
  }

  function Msgs(d: seq<Delivery>): Buffer {
    if d == [] then [] else Msgs(d[..|d| - 1]) + [d[|d| - 1].msg]
  }

  /** What one receiver got, in order. */
  function Log(d: seq<Delivery>, c: ChanId): Buffer {
    if d == [] then []
    else Log(d[..|d| - 1], c) + (if d[|d| - 1].chan == c then [d[|d| - 1].msg] else [])
  }

  lemma {:induction false} MsgsAppend(a: seq<Delivery>, b: seq<Delivery>)
    ensures Msgs(a + b) == Msgs(a) + Msgs(b)
  {
    if b == [] {
      assert a + b == a;
    } else {
      assert (a + b)[..|a + b| - 1] == a + b[..|b| - 1];
      MsgsAppend(a, b[..|b| - 1]);
    }
  }

  lemma {:induction false} LogAppend(a: seq<Delivery>, b: seq<Delivery>, c: ChanId)
    ensures Log(a + b, c) == Log(a, c) + Log(b, c)
  {
    if b == [] {
      assert a + b == a;
    } else {
      assert (a + b)[..|a + b| - 1] == a + b[..|b| - 1];
      LogAppend(a, b[..|b| - 1], c);
    }
  }

  lemma {:induction false} SendAllLog(c: ChanId, ms: Buffer, d: ChanId)
    ensures Msgs(SendAll(c, ms)) == ms
    ensures Log(SendAll(c, ms), d) == if c == d then ms else []
  {
    if ms != [] {
      var n := |ms| - 1;
      assert SendAll(c, ms)[..n] == SendAll(c, ms[..n]);
      SendAllLog(c, ms[..n], d);
      assert ms == ms[..n] + [ms[n]];
    }
  }

  lemma {:induction false} SendOneLog(c: ChanId, m: GenericMessage, d: ChanId)
    ensures Msgs([Delivery(c, m)]) == [m]
    ensures Log([Delivery(c, m)], d) == if c == d then [m] else []
  {
    assert [Delivery(c, m)][..0] == [];
  }

  // ----- conservation -----

  /** Whatever the mode and whichever receivers are gone, no message is lost or duplicated. */
  lemma {:induction false} Conservation(mode: Mode, steps: seq<Step>)
    requires Exec(mode, steps).Running?
    ensures var s := Exec(mode, steps).state;
            multiset(Arrivals(steps)) == multiset(s.messages) + multiset(Msgs(s.deliveries))
  {
    if steps != [] {
      var n := |steps| - 1;
      Conservation(mode, steps[..n]);
      StepConserves(mode, Exec(mode, steps[..n]).state, steps[n]);
      assert multiset(Arrivals(steps)) == multiset(Arrivals(steps[..n]))
        + (match steps[n].event case Arrive(m) => multiset{m} case _ => multiset{});
    }
  }

  function Held(s: State): multiset<GenericMessage> {
    multiset(s.messages) + multiset(Msgs(s.deliveries))
  }

  lemma {:induction false} StepConserves(mode: Mode, s: State, step: Step)
    requires Next(mode, s, step).Running?
    ensures Held(Next(mode, s, step).state)
            == Held(s) + (match step.event case Arrive(m) => multiset{m} case _ => multiset{})
  {
    match step.event
    case Pull(f, c) => PullConserves(s, f, c, step.key);
    case Listen(f, c) => ListenConserves(mode, s, f, c, step.key);
    case Arrive(m) => ArriveConserves(s, m, step.key);
    case Close(_) =>
  }

  lemma {:induction false} PullConserves(s: State, f: GenericFilter, c: ChanId, k: FilterKey)
    requires NextPull(s, f, c, k).Running?
    ensures Held(NextPull(s, f, c, k).state) == Held(s)
  {
    if PullFirst(f, s.messages).Some? {
      var (m, rest) := PullFirst(f, s.messages).value;
      PullFirstProperties(f, s.messages);
      if c in s.closed {
        assert multiset(rest + [m]) == multiset(rest) + multiset{m};
      } else {
        SendOneConserves(s.deliveries, c, m);
      }
    }
  }

  lemma {:induction false} ListenConserves(mode: Mode, s: State, f: GenericFilter, c: ChanId, k: FilterKey)
    requires NextListen(mode, s, f, c, k).Running?
    ensures Held(NextListen(mode, s, f, c, k).state) == Held(s)
  {
    var (taken, rest) := DrainBy(mode, f, s.messages).value;
    DrainConserves(mode, f, s.messages);
    MsgsAppend(s.deliveries, SendAll(c, taken));
    SendAllLog(c, taken, c);
  }

  lemma {:induction false} ArriveConserves(s: State, m: GenericMessage, k: FilterKey)
    requires NextArrive(s, m, k).Running?
    ensures Held(NextArrive(s, m, k).state) == Held(s) + multiset{m}
  {
    if SomeMatch(s.filters, m) {
      var c := match s.subscribers[k] case Oneshot(cell) => cell.value case Stream(c) => c;
      SendOneConserves(s.deliveries, c, m);
    } else {
      assert multiset(s.messages + [m]) == multiset(s.messages) + multiset{m};
    }
  }

  lemma {:induction false} SendOneConserves(d: seq<Delivery>, c: ChanId, m: GenericMessage)
    ensures multiset(Msgs(d + [Delivery(c, m)])) == multiset(Msgs(d)) + multiset{m}
  {
    MsgsAppend(d, [Delivery(c, m)]);
    SendOneLog(c, m, c);
  }

  lemma {:induction false} DrainConserves(mode: Mode, f: GenericFilter, ms: Buffer)
    requires DrainBy(mode, f, ms).Some?
    ensures var (taken, rest) := DrainBy(mode, f, ms).value; multiset(ms) == multiset(taken) + multiset(rest)
  {
    if mode == AsWritten {
      Removal.RemoveEachConserves(ms, MatchIndexes(f, ms));
    } else {
      SelectProperties(f, ms);
    }
  }
}
