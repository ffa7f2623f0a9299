/** `DenseSlotMap`: values stored densely in insertion order, the last one moved into the hole on removal. */
module SlotMap {
  import opened Common

  datatype Slot<T> = Slot(key: nat, value: T)

  datatype DenseSlotMap<T> = DenseSlotMap(slots: seq<Slot<T>>, nextKey: nat) {
    /** Keys are unique and older than the next one. */
    predicate Valid() {
      && (forall i :: 0 <= i < |slots| ==> slots[i].key < nextKey)
      && (forall i, j :: 0 <= i < j < |slots| ==> slots[i].key != slots[j].key)
    }

    ghost predicate Has(k: nat) {
      exists i :: 0 <= i < |slots| && slots[i].key == k
    }

    ghost function IndexOf(k: nat): (i: nat)
      requires Has(k)
      ensures i < |slots| && slots[i].key == k
    {
      var i :| 0 <= i < |slots| && slots[i].key == k; i
    }

    ghost function AsMap(): map<nat, T> {
      map k | 0 <= k < nextKey && Has(k) :: slots[IndexOf(k)].value
    }

    function Insert(v: T): (r: DenseSlotMap<T>)
    {
      DenseSlotMap(slots + [Slot(nextKey, v)], nextKey + 1)
    }

    function SwapRemove(i: nat): DenseSlotMap<T>
      requires i < |slots|
    {
      var last := |slots| - 1;
      DenseSlotMap(if i == last then slots[..last] else slots[..last][i := slots[last]], nextKey)
    }

    lemma {:induction false} AsMapAt(i: nat)
      requires Valid() && i < |slots|
      ensures slots[i].key in AsMap() && AsMap()[slots[i].key] == slots[i].value
    {
      assert Has(slots[i].key);
    }

    lemma {:induction false} InsertLaw(v: T)
      requires Valid()
      ensures Insert(v).Valid() && nextKey !in AsMap() && Insert(v).AsMap() == AsMap()[nextKey := v]
    {
      var r := Insert(v);
      InsertedHas(v);
      forall k ensures k in r.AsMap() <==> k in AsMap()[nextKey := v] {
        r.InMap(k);
        InMap(k);
      }
      forall k | k in AsMap()[nextKey := v] ensures r.AsMap()[k] == AsMap()[nextKey := v][k] {
        InsertedAt(v, k);
      }
    }

    /** The new slot and the old ones. */
    lemma {:induction false} InsertedHas(v: T)
      requires Valid()
      ensures Insert(v).Valid()
      ensures forall k :: Insert(v).Has(k) <==> k == nextKey || Has(k)
    {
      var r := Insert(v);
      assert r.slots[|slots|] == Slot(nextKey, v);
      forall k | Has(k) ensures r.Has(k) {
        assert r.slots[IndexOf(k)].key == k;
      }
      forall k | r.Has(k) && k != nextKey ensures Has(k) {
        assert slots[r.IndexOf(k)].key == k;
      }
    }

    lemma {:induction false} InsertedAt(v: T, k: nat)
      requires Valid() && (k == nextKey || k in AsMap())
      ensures k in Insert(v).AsMap() && Insert(v).AsMap()[k] == if k == nextKey then v else AsMap()[k]
    {
      var r := Insert(v);
      InsertedHas(v);
      var i := if k == nextKey then |slots| else IndexOf(k);
      assert r.slots[i] == if k == nextKey then Slot(nextKey, v) else slots[i];
      r.AsMapAt(i);
    }

    lemma {:induction false} InMap(k: nat)
      requires Valid()
      ensures k in AsMap() <==> Has(k)
    {
      if Has(k) {
        AsMapAt(IndexOf(k));
      }
    }

    lemma {:induction false} SwapRemoveKeeps(i: nat, j: nat)
      requires Valid() && i < |slots| && j < |slots| && j != i
      ensures SwapRemove(i).Valid() && slots[j].key in SwapRemove(i).AsMap()
      ensures SwapRemove(i).AsMap()[slots[j].key] == slots[j].value
    {
      var r := SwapRemove(i);
      var at := if j == |slots| - 1 then i else j;
      assert r.slots[at] == slots[j];
      r.AsMapAt(at);
    }

    lemma {:induction false} SwapRemoveLaw(i: nat)
      requires Valid() && i < |slots|
      ensures SwapRemove(i).Valid() && SwapRemove(i).AsMap() == AsMap() - {slots[i].key}
    {
      var r := SwapRemove(i);
      var gone := slots[i].key;
      assert r.Valid();
      forall k ensures k in r.AsMap() <==> k in AsMap() - {gone} {
        r.InMap(k);
        InMap(k);
        if r.Has(k) {
          var j := r.IndexOf(k);
          var from := if j == i then |slots| - 1 else j;
          assert slots[from] == r.slots[j] && from != i;
        } else if Has(k) && k != gone {
          SwapRemoveKeeps(i, IndexOf(k));
        }
      }
      forall k | k in AsMap() - {gone} ensures r.AsMap()[k] == AsMap()[k] {
        InMap(k);
        AsMapAt(IndexOf(k));
        SwapRemoveKeeps(i, IndexOf(k));
      }
    }
  }
}

/** The router's task (src/mesh/message_queue.rs:132-234), step by step a run of the state machine. */
module MessageQueues {
  import opened Common
  import opened Messages
  import opened Drain
  import opened Router
  import opened SlotMap
  import opened SlotSearch
  import Removal

  /** The channels as the router sees them: a send appends to the receiver's log, or fails when it is gone. */
  class Channels {
    var closed: set<ChanId>
    var deliveries: seq<Delivery>

    constructor ()
      ensures closed == {} && deliveries == []
    {
      closed, deliveries := {}, [];
    }

    method Send(c: ChanId, m: GenericMessage) returns (ok: bool)
      modifies this`deliveries
      ensures ok <==> c !in closed
      ensures deliveries == old(deliveries) + (if ok then [Delivery(c, m)] else [])
    {
      ok := c !in closed;
      if ok {
        deliveries := deliveries + [Delivery(c, m)];
      }
    }
  }

  /** The steps are those of the first `i` events. */
  ghost predicate Follows(steps: seq<Step>, events: seq<Event>, i: nat)
    requires i <= |events|
  {
    |steps| == i && forall j :: 0 <= j < i ==> steps[j].event == events[j]
  }

  class MessageQueue {
    var messages: Buffer
    var filters: DenseSlotMap<GenericFilter>
    var subscribers: map<FilterKey, Subscriber>
    const channels: Channels

    ghost predicate Valid()
      reads this
    {
      filters.Valid()
    }

    ghost function Abs(): State
      reads this, channels
    {
      State(messages, filters.AsMap(), subscribers, channels.deliveries, channels.closed)
    }

    /** How a step ended that returned `panic`. */
    ghost function OutcomeOf(panic: Option<Panic>): Outcome
      reads this, channels
    {
      if panic.Some? then Panicked(panic.value) else Running(Abs())
    }

    constructor ()
      ensures Valid() && fresh(channels) && Abs() == INIT && filters == FiltersOf([])
    {
      messages, filters, subscribers := [], DenseSlotMap([], 0), map[];
      channels := new Channels();
    }

    method TryPullOne(cell: Option<ChanId>, f: GenericFilter) returns (pulled: bool, left: Option<ChanId>)
      requires Valid() && cell.Some?
      modifies this`messages, channels`deliveries
      ensures PullFirst(f, old(messages)).None? ==>
        !pulled && left == cell && Abs() == old(Abs())
      ensures PullFirst(f, old(messages)).Some? ==>
        var (m, rest) := PullFirst(f, old(messages)).value;
        && left == None
        && pulled == (cell.value !in channels.closed)
        && Abs() == if pulled
                    then old(Abs()).(
                      messages := rest, deliveries := old(channels.deliveries) + [Delivery(cell.value, m)])
                    else old(Abs()).(messages := rest + [m])
    {
      left := cell;
      var i := 0;
      while i < |messages| && !f.IsMatch(messages[i])
        invariant 0 <= i <= |messages|
        invariant forall j :: 0 <= j < i ==> !f.IsMatch(messages[j])
      {
        i := i + 1;
      }
      if i < |messages| {
        PullFirstAt(f, messages, i);
        var msg := messages[i];
        messages := messages[..i] + messages[i + 1..];
        left := None;
        pulled := channels.Send(cell.value, msg);
        if !pulled {
          messages := messages + [msg];
        }
      } else {
        PullFirstNone(f, messages);
        pulled := false;
      }
    }

    /** One turn of the drain loop: remove index `i`, send what was there. */
    method RemoveAndSend(i: nat, c: ChanId) returns (msg: GenericMessage, ok: bool)
      requires i < |messages|
      modifies this`messages, channels`deliveries
      ensures msg == old(messages)[i] && messages == old(messages)[..i] + old(messages)[i + 1..]
      ensures ok <==> c !in channels.closed
      ensures channels.deliveries == old(channels.deliveries) + (if ok then [Delivery(c, msg)] else [])
    {
      msg := messages[i];
      messages := messages[..i] + messages[i + 1..];
      ok := channels.Send(c, msg);
    }

    /** The drain loop: remove the given indexes in turn, sending each message on `c`. */
    method DrainLoop(c: ChanId, indexes: seq<nat>) returns (panic: Option<Panic>)
      requires indexes != [] ==> indexes[0] < |messages|
      modifies this`messages, channels`deliveries
      ensures panic == (
          if indexes != [] && c in channels.closed then Some(ClosedReceiver)
          else if Removal.RemoveEach(old(messages), indexes).None? then Some(RemoveOutOfBounds)
          else None)
      ensures panic.None? ==>
        && messages == Removal.RemoveEach(old(messages), indexes).value.1
        && channels.deliveries
           == old(channels.deliveries) + SendAll(c, Removal.RemoveEach(old(messages), indexes).value.0)
    {
      ghost var taken: Buffer := [];
      assert SendAll(c, taken) == [];
      for j := 0 to |indexes|
        invariant Removal.RemoveEach(old(messages), indexes[..j]) == Some((taken, messages))
        invariant channels.deliveries == old(channels.deliveries) + SendAll(c, taken)
        invariant j > 0 ==> c !in channels.closed
      {
        assert indexes[..j + 1][..j] == indexes[..j];
        if indexes[j] >= |messages| {
          Removal.RemoveEachStopsAt(old(messages), indexes, j + 1);
          return Some(RemoveOutOfBounds);
        }
        var msg, ok := RemoveAndSend(indexes[j], c);
        if !ok {
          return Some(ClosedReceiver);
        }
        assert SendAll(c, taken) + [Delivery(c, msg)] == SendAll(c, taken + [msg]);
        taken := taken + [msg];
      }
      assert indexes[..|indexes|] == indexes;
      panic := None;
    }

    /** As written: the indexes are those of the buffer before any removal. */
    method TryPullMany(c: ChanId, f: GenericFilter) returns (panic: Option<Panic>)
      requires Valid()
      modifies this`messages, channels`deliveries
      ensures panic == (
          if |MatchIndexes(f, old(messages))| > 0 && c in channels.closed then Some(ClosedReceiver)
          else if DrainAsWritten(f, old(messages)).None? then Some(RemoveOutOfBounds)
          else None)
      ensures panic.None? ==>
        var (taken, rest) := DrainAsWritten(f, old(messages)).value;
        Abs() == old(Abs()).(messages := rest, deliveries := old(channels.deliveries) + SendAll(c, taken))
    {
      var indexes := IterFilter(f, messages);
      assert indexes != [] ==> indexes[0] in indexes;
      panic := DrainLoop(c, indexes);
    }

    /** The repaired variant of `TryPullMany`: the j-th removal takes index `i_j - j`. */
    method TryPullManyRepaired(c: ChanId, f: GenericFilter) returns (panic: Option<Panic>)
      requires Valid()
      modifies this`messages, channels`deliveries
      ensures panic == (
          if |MatchIndexes(f, old(messages))| > 0 && c in channels.closed then Some(ClosedReceiver) else None)
      ensures panic.None? ==>
        Abs() == old(Abs()).(
          messages := Reject(f, old(messages)),
          deliveries := old(channels.deliveries) + SendAll(c, Select(f, old(messages))))
    {
      var indexes := IterFilter(f, messages);
      var shifted := Removal.Shifted(indexes, |messages|);
      DrainRepairedLaw(f, messages);
      Removal.ShiftedPositions(indexes, |messages|);
      assert indexes != [] ==> shifted[0] == indexes[0] && indexes[0] in indexes;
      panic := DrainLoop(c, shifted);
    }

    method AddSubscriber(f: GenericFilter, sub: Subscriber) returns (key: FilterKey)
      requires Valid()
      modifies this`filters, this`subscribers
      ensures Valid() && key !in old(filters.AsMap())
      ensures Abs() == Register(old(Abs()), key, f, sub)
      ensures key == old(filters).nextKey && filters == old(filters).Insert(f)
    {
      filters.InsertLaw(f);
      key := filters.nextKey;
      filters := filters.Insert(f);
      subscribers := subscribers[key := sub];
    }

    method MatchFilter(m: GenericMessage) returns (slot: Option<nat>)
      requires Valid()
      ensures slot == FirstMatching(filters.slots, m)
      ensures slot.Some? <==> SomeMatch(filters.AsMap(), m)
      ensures slot.Some? ==>
        && slot.value < |filters.slots| && filters.slots[slot.value].key in filters.AsMap()
        && filters.AsMap()[filters.slots[slot.value].key].IsMatch(m)
    {
      for i := 0 to |filters.slots|
        invariant forall j :: 0 <= j < i ==> !filters.slots[j].value.IsMatch(m)
      {
        if filters.slots[i].value.IsMatch(m) {
          filters.AsMapAt(i);
          return Some(i);
        }
      }
      forall k | k in filters.AsMap() ensures !filters.AsMap()[k].IsMatch(m) {
        assert filters.AsMap()[k] == filters.slots[filters.IndexOf(k)].value;
      }
      slot := None;
    }

    /** The subscription branch of the loop. */
    method HandleSubscription(e: Event) returns (panic: Option<Panic>, ghost key: FilterKey)
      requires Valid() && (e.Pull? || e.Listen?)
      modifies this`messages, this`filters, this`subscribers, channels`deliveries
      ensures Valid() && Enabled(old(Abs()), Step(e, key)) && key == KeyFor(old(filters), e)
      ensures panic.None? ==> filters == FiltersAfter(old(filters), old(Abs()), e)
      ensures Next(AsWritten, old(Abs()), Step(e, key)) == OutcomeOf(panic)
    {
      panic := None;
      filters.InsertLaw(e.filter);
      key := filters.nextKey;
      if e.Pull? {
        var pulled, cell := TryPullOne(Some(e.chan), e.filter);
        if !pulled {
          key := AddSubscriber(e.filter, Oneshot(cell));
        }
      } else {
        panic := TryPullMany(e.chan, e.filter);
        if panic.None? {
          key := AddSubscriber(e.filter, Stream(e.chan));
        }
      }
    }

    /** The message branch of the loop. */
    method HandleMessage(m: GenericMessage) returns (panic: Option<Panic>, ghost key: FilterKey)
      requires Valid()
      modifies this`messages, this`filters, this`subscribers, channels`deliveries
      ensures Valid() && Enabled(old(Abs()), Step(Arrive(m), key)) && key == KeyFor(old(filters), Arrive(m))
      ensures panic.None? ==> filters == FiltersAfter(old(filters), old(Abs()), Arrive(m))
      ensures Next(AsWritten, old(Abs()), Step(Arrive(m), key)) == OutcomeOf(panic)
    {
      panic, key := None, 0;
      var slot := MatchFilter(m);
      if slot.None? {
        messages := messages + [m];
        return;
      }
      var index := filters.slots[slot.value].key;
      key := index;
      if index !in subscribers {
        return Some(InconsistentState), key;
      }
      match subscribers[index] {
        case Oneshot(None) =>
          return Some(ReusedOneshot), key;
        case Oneshot(Some(c)) =>
          var ok := channels.Send(c, m);
          if !ok {
            return Some(ClosedReceiver), key;
          }
          filters.SwapRemoveLaw(slot.value);
          subscribers := subscribers - {index};
          filters := filters.SwapRemove(slot.value);
        case Stream(c) =>
          var ok := channels.Send(c, m);
          if !ok {
            return Some(ClosedReceiver), key;
          }
      }
    }

    /** One turn of the loop, or a receiver that goes away. */
    method Handle(e: Event) returns (panic: Option<Panic>, ghost key: FilterKey)
      requires Valid()
      modifies this`messages, this`filters, this`subscribers, channels
      ensures Valid() && Enabled(old(Abs()), Step(e, key)) && key == KeyFor(old(filters), e)
      ensures panic.None? ==> filters == FiltersAfter(old(filters), old(Abs()), e)
      ensures Next(AsWritten, old(Abs()), Step(e, key)) == OutcomeOf(panic)
    {
      match e {
        case Pull(_, _) => panic, key := HandleSubscription(e);
        case Listen(_, _) => panic, key := HandleSubscription(e);
        case Arrive(m) => panic, key := HandleMessage(m);
        case Close(c) =>
          channels.closed := channels.closed + {c};
          panic, key := None, 0;
      }
    }

    /** The same as one more step of a run. */
    method Turn(events: seq<Event>, i: nat, ghost before: seq<Step>)
        returns (panic: Option<Panic>, ghost steps: seq<Step>)
      requires i < |events| && Valid() && Follows(before, events, i) && CodeRun(before, Running(Abs()), filters)
      modifies this`messages, this`filters, this`subscribers, channels
      ensures Valid() && Follows(steps, events, i + 1) && CodeRun(steps, OutcomeOf(panic), filters)
    {
      ghost var key;
      ghost var s, was := Abs(), filters;
      panic, key := Handle(events[i]);
      CodeRunSnoc(before, Step(events[i], key), s, was, OutcomeOf(panic), filters);
      steps := before + [Step(events[i], key)];
    }

    /** The select loop, over the events in the order in which it gets to see them: a run of the state machine, and
        the one with the code's own keys. */
    method Serve(events: seq<Event>) returns (panic: Option<Panic>, ghost steps: seq<Step>)
      requires Valid() && Abs() == INIT && filters == FiltersOf([])
      modifies this`messages, this`filters, this`subscribers, channels
      ensures Valid() && |steps| <= |events| && Follows(steps, events, |steps|)
      ensures panic.None? ==> |steps| == |events|
      ensures CodeRun(steps, OutcomeOf(panic), filters)
    {
      steps, panic := [], None;
      for i := 0 to |events|
        invariant Valid() && panic.None? && Follows(steps, events, i)
        invariant CodeRun(steps, Running(Abs()), filters)
      {
        panic, steps := Turn(events, i, steps);
        if panic.Some? {
          return;
        }
      }
    }
  }
}
