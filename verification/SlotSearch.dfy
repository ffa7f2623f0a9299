/** The search for the filter that gets a message (`match_filter`), over slots that removals reorder. */
module SlotSearch {
  import opened Common
  import opened Messages
  import opened Drain
  import opened Router
  import opened SlotMap

  /** The first slot whose filter matches. */
  function FirstMatching(slots: seq<Slot<GenericFilter>>, m: GenericMessage): (r: Option<nat>)
    ensures r.None? ==> forall j :: 0 <= j < |slots| ==> !slots[j].value.IsMatch(m)
    ensures r.Some? ==> r.value < |slots| && slots[r.value].value.IsMatch(m)
    ensures r.Some? ==> forall j :: 0 <= j < r.value ==> !slots[j].value.IsMatch(m)
  {
    if slots == [] then None
    else if slots[0].value.IsMatch(m) then Some(0)
    else
      var rest := slots[1..];
      assert forall j :: 0 < j < |slots| ==> slots[j] == rest[j - 1];
      match FirstMatching(rest, m)
      case None => None
      case Some(i) => Some(i + 1)
  }

  /** The slots are in the order of registration. */
  predicate ByAge(slots: seq<Slot<GenericFilter>>) {
    forall i, j :: 0 <= i < j < |slots| ==> slots[i].key < slots[j].key
  }

  /** A message goes to the oldest of the registered filters that match it. */
  predicate GoesToOldest(slots: seq<Slot<GenericFilter>>, m: GenericMessage) {
    var r := FirstMatching(slots, m);
    r.Some? ==> forall j :: 0 <= j < |slots| && slots[j].value.IsMatch(m) ==> slots[r.value].key <= slots[j].key
  }

  /** As long as nothing has been removed it does. */
  lemma {:induction false} InOrderGoesToOldest(slots: seq<Slot<GenericFilter>>, m: GenericMessage)
    requires ByAge(slots)
    ensures GoesToOldest(slots, m)
  {
    var r := FirstMatching(slots, m);
    if r.Some? {
      forall j | 0 <= j < |slots| && slots[j].value.IsMatch(m) ensures slots[r.value].key <= slots[j].key {
        assert r.value <= j;
      }
    }
  }

  /** The youngest filter, moved to position `i`, is found before an older one behind it. */
  predicate Overtakes(slots: seq<Slot<GenericFilter>>, i: nat, m: GenericMessage) {
    var last := |slots| - 1;
    && i < last && slots[last].value.IsMatch(m)
    && (forall j :: 0 <= j < i ==> !slots[j].value.IsMatch(m))
    && (exists j :: i < j < last && slots[j].value.IsMatch(m))
  }

  /** From slots in the order of registration a message goes to the oldest match after a removal exactly when the
      youngest filter, which has moved into the hole, does not overtake an older one that matches too. */
  lemma {:induction false} FirstRemovalIff(filters: DenseSlotMap<GenericFilter>, i: nat, m: GenericMessage)
    requires filters.Valid() && ByAge(filters.slots) && i < |filters.slots|
    ensures GoesToOldest(filters.SwapRemove(i).slots, m) <==> !Overtakes(filters.slots, i, m)
    ensures Overtakes(filters.slots, i, m) ==>
      FirstMatching(filters.SwapRemove(i).slots, m) == Some(i)
      && filters.SwapRemove(i).slots[i] == filters.slots[|filters.slots| - 1]
  {
    var slots, left := filters.slots, filters.SwapRemove(i).slots;
    if Overtakes(slots, i, m) {
      YoungestIsFound(slots, left, i, m);
    } else if FirstMatching(left, m).Some? {
      var r := FirstMatching(left, m).value;
      forall j | 0 <= j < |left| && left[j].value.IsMatch(m) ensures left[r].key <= left[j].key {
        NotOvertaken(slots, left, i, m, r, j);
      }
    }
  }

  /** The last slot has moved to position `i`. */
  predicate Moved(slots: seq<Slot<GenericFilter>>, left: seq<Slot<GenericFilter>>, i: nat) {
    && i < |slots| && |left| == |slots| - 1
    && forall j :: 0 <= j < |left| ==> left[j] == slots[if j == i then |slots| - 1 else j]
  }

  lemma {:induction false} YoungestIsFound(slots: seq<Slot<GenericFilter>>, left: seq<Slot<GenericFilter>>, i: nat,
      m: GenericMessage)
    requires ByAge(slots) && Moved(slots, left, i) && Overtakes(slots, i, m)
    ensures FirstMatching(left, m) == Some(i) && !GoesToOldest(left, m)
  {
    assert left[i].value.IsMatch(m);
    var j :| i < j < |slots| - 1 && slots[j].value.IsMatch(m);
    assert left[j] == slots[j] && left[i].key > left[j].key;
  }

  lemma {:induction false} NotOvertaken(slots: seq<Slot<GenericFilter>>, left: seq<Slot<GenericFilter>>, i: nat,
      m: GenericMessage, r: nat, j: nat)
    requires ByAge(slots) && Moved(slots, left, i) && !Overtakes(slots, i, m)
    requires FirstMatching(left, m) == Some(r) && j < |left| && left[j].value.IsMatch(m)
    ensures left[r].key <= left[j].key
  {
    assert r <= j;
    if r == i && j > i {
      assert forall h :: 0 <= h < i ==> left[h] == slots[h];
      assert slots[j].value.IsMatch(m);
      assert Overtakes(slots, i, m);
    }
  }

  /** The order of registration survives exactly the removal of one of the two youngest filters. */
  lemma {:induction false} OrderIsKeptIff(filters: DenseSlotMap<GenericFilter>, i: nat)
    requires filters.Valid() && ByAge(filters.slots) && i < |filters.slots|
    ensures ByAge(filters.SwapRemove(i).slots) <==> i + 2 >= |filters.slots|
  {
    var slots, left := filters.slots, filters.SwapRemove(i).slots;
    var last := |slots| - 1;
    assert Moved(slots, left, i);
    if i + 1 < last {
      assert left[i] == slots[last] && left[i + 1] == slots[i + 1];
      assert !(left[i].key < left[i + 1].key);
    }
  }

  /** The filter at `a` is the one the search finds once the filter at `i` is gone. */
  predicate FoundAfter(slots: seq<Slot<GenericFilter>>, i: nat, m: GenericMessage, a: nat)
    requires i < |slots|
  {
    var last := |slots| - 1;
    && a < |slots| && a != i && slots[a].value.IsMatch(m)
    && if a == last then forall j :: 0 <= j < i ==> !slots[j].value.IsMatch(m)
       else
         && (forall j :: 0 <= j < a && j != i ==> !slots[j].value.IsMatch(m))
         && (i < last && slots[last].value.IsMatch(m) ==> a < i)
  }

  /** No matching filter but the one at `i` is older than the one at `a`. */
  predicate OldestBut(slots: seq<Slot<GenericFilter>>, i: nat, m: GenericMessage, a: nat)
    requires a < |slots|
  {
    forall b :: 0 <= b < |slots| && b != i && slots[b].value.IsMatch(m) ==> slots[a].key <= slots[b].key
  }

  lemma {:induction false} FoundIsMoved(slots: seq<Slot<GenericFilter>>, left: seq<Slot<GenericFilter>>, i: nat,
      m: GenericMessage, r: nat)
    requires Moved(slots, left, i) && FirstMatching(left, m) == Some(r)
    ensures FoundAfter(slots, i, m, if r == i then |slots| - 1 else r)
  {
    var last := |slots| - 1;
    assert forall j :: 0 <= j < r ==> !left[j].value.IsMatch(m);
    assert forall j :: 0 <= j < r && j != i ==> left[j] == slots[j];
    assert i < r ==> left[i] == slots[last];
  }

  lemma {:induction false} FoundAfterIsOne(slots: seq<Slot<GenericFilter>>, i: nat, m: GenericMessage, a: nat, b: nat)
    requires i < |slots| && FoundAfter(slots, i, m, a) && FoundAfter(slots, i, m, b)
    ensures a == b
  {
  }

  /** For any slots, whatever was removed before: after a removal a message goes to the oldest match left exactly
      when no other match left is older than the one that is then found. */
  lemma {:induction false} OldestIsFoundIff(filters: DenseSlotMap<GenericFilter>, i: nat, m: GenericMessage)
    requires filters.Valid() && i < |filters.slots|
    ensures GoesToOldest(filters.SwapRemove(i).slots, m) <==>
      forall a: nat :: FoundAfter(filters.slots, i, m, a) ==> OldestBut(filters.slots, i, m, a)
  {
    var slots, left := filters.slots, filters.SwapRemove(i).slots;
    var last := |slots| - 1;
    assert Moved(slots, left, i);
    if FirstMatching(left, m).Some? {
      var r := FirstMatching(left, m).value;
      var found: nat := if r == i then last else r;
      FoundIsMoved(slots, left, i, m, r);
      MatchesMoved(slots, left, i, m, r);
      assert left[r] == slots[found];
      forall a: nat | FoundAfter(slots, i, m, a) ensures a == found {
        FoundAfterIsOne(slots, i, m, a, found);
      }
    } else {
      NothingLeft(slots, left, i, m);
    }
  }

  lemma {:induction false} NothingLeft(slots: seq<Slot<GenericFilter>>, left: seq<Slot<GenericFilter>>, i: nat,
      m: GenericMessage)
    requires Moved(slots, left, i) && FirstMatching(left, m).None?
    ensures forall b :: 0 <= b < |slots| && b != i ==> !slots[b].value.IsMatch(m)
  {
    var last := |slots| - 1;
    forall b | 0 <= b < |slots| && b != i ensures !slots[b].value.IsMatch(m) {
      assert left[if b == last then i else b] == slots[b];
    }
  }

  /** No match left is older than the one at `r`, before and after the move. */
  lemma {:induction false} MatchesMoved(slots: seq<Slot<GenericFilter>>, left: seq<Slot<GenericFilter>>, i: nat,
      m: GenericMessage, r: nat)
    requires Moved(slots, left, i) && r < |left|
    ensures (forall j :: 0 <= j < |left| && left[j].value.IsMatch(m) ==> left[r].key <= left[j].key)
            <==> forall b :: 0 <= b < |slots| && b != i && slots[b].value.IsMatch(m) ==> left[r].key <= slots[b].key
  {
    var last := |slots| - 1;
    assert forall b :: 0 <= b < |slots| && b != i ==> left[if b == last then i else b] == slots[b];
    assert forall j :: 0 <= j < |left| ==> left[j] == slots[if j == i then last else j];
  }

  // ----- the keys the code uses -----

  /** A registration takes the next key, a message the key of the filter found. */
  function KeyFor(filters: DenseSlotMap<GenericFilter>, e: Event): FilterKey {
    match e
    case Arrive(m) =>
      (match FirstMatching(filters.slots, m)
       case Some(i) => filters.slots[i].key
       case None => 0)
    case Close(_) => 0
    case _ => filters.nextKey
  }

  /** The slots after an event that does not panic. */
  function FiltersAfter(filters: DenseSlotMap<GenericFilter>, s: State, e: Event): DenseSlotMap<GenericFilter> {
    match e
    case Pull(f, c) => if PullFirst(f, s.messages).Some? && c !in s.closed then filters else filters.Insert(f)
    case Listen(f, _) => filters.Insert(f)
    case Arrive(m) =>
      (match FirstMatching(filters.slots, m)
       case Some(i) =>
         var k := filters.slots[i].key;
         if k in s.subscribers && s.subscribers[k].Oneshot? then filters.SwapRemove(i) else filters
       case None => filters)
    case Close(_) => filters
  }

  function FiltersOf(steps: seq<Step>): DenseSlotMap<GenericFilter> {
    if steps == [] then DenseSlotMap([], 0)
    else
      var front, last := steps[..|steps| - 1], steps[|steps| - 1];
      match Exec(AsWritten, front)
      case Running(s) => FiltersAfter(FiltersOf(front), s, last.event)
      case _ => FiltersOf(front)
  }

  /** Every step uses the key the code uses, so that the events alone determine the run. */
  predicate CodeKeys(steps: seq<Step>) {
    steps == [] ||
    var front, last := steps[..|steps| - 1], steps[|steps| - 1];
    CodeKeys(front) && last.key == KeyFor(FiltersOf(front), last.event)
  }

  lemma {:induction false} CodeSnoc(front: seq<Step>, last: Step, s: State)
    requires Exec(AsWritten, front) == Running(s)
    ensures FiltersOf(front + [last]) == FiltersAfter(FiltersOf(front), s, last.event)
    ensures CodeKeys(front + [last]) <==> CodeKeys(front) && last.key == KeyFor(FiltersOf(front), last.event)
  {
    assert (front + [last])[..|front + [last]| - 1] == front;
  }

  /** A run of the code and the filters it has led to. */
  ghost predicate CodeRun(steps: seq<Step>, o: Outcome, filters: DenseSlotMap<GenericFilter>) {
    CodeKeys(steps) && Exec(AsWritten, steps) == o && (o.Running? ==> FiltersOf(steps) == filters)
  }

  lemma {:induction false} CodeRunSnoc(steps: seq<Step>, step: Step, s: State, filters: DenseSlotMap<GenericFilter>,
      o: Outcome, filters': DenseSlotMap<GenericFilter>)
    requires CodeRun(steps, Running(s), filters)
    requires Enabled(s, step) && step.key == KeyFor(filters, step.event) && Next(AsWritten, s, step) == o
    requires o.Running? ==> filters' == FiltersAfter(filters, s, step.event)
    ensures CodeRun(steps + [step], o, filters')
  {
    ExecSnoc(AsWritten, steps, step);
    CodeSnoc(steps, step, s);
  }

  /** A run of the code in which a younger filter overtakes an older one: a waiter and two streams register, the
      waiter is served and leaves, and a message both streams want then goes to the younger stream. */
  lemma {:induction false} YoungerOvertakes(f: GenericFilter, g: GenericFilter, h: GenericFilter,
      x: GenericMessage, m: GenericMessage)
    requires f.IsMatch(x) && g.IsMatch(m) && h.IsMatch(m)
    ensures var steps := [Step(Pull(f, 0), 0), Step(Listen(g, 1), 1), Step(Listen(h, 2), 2)]
                         + [Step(Arrive(x), 0)] + [Step(Arrive(m), 2)];
            var o := Exec(AsWritten, steps);
      && CodeKeys(steps) && o.Running?
      && o.state.deliveries == [Delivery(0, x), Delivery(2, m)]
      && FiltersOf(steps).slots == [Slot(2, h), Slot(1, g)]
  {
    ThreeRegister(f, g, h);
    OvertakesFrom([Step(Pull(f, 0), 0), Step(Listen(g, 1), 1), Step(Listen(h, 2), 2)], f, g, h, x, m);
  }

  lemma {:induction false} OvertakesFrom(before: seq<Step>, f: GenericFilter, g: GenericFilter, h: GenericFilter,
      x: GenericMessage, m: GenericMessage)
    requires f.IsMatch(x) && g.IsMatch(m) && h.IsMatch(m)
    requires CodeRun(before, Running(Registered(f, g, h)), DenseSlotMap([Slot(0, f), Slot(1, g), Slot(2, h)], 3))
    ensures CodeRun(before + [Step(Arrive(x), 0)] + [Step(Arrive(m), 2)],
                    Running(Unregister(Registered(f, g, h), 0).(deliveries := [Delivery(0, x), Delivery(2, m)])),
                    DenseSlotMap([Slot(2, h), Slot(1, g)], 3))
  {
    var s := Registered(f, g, h);
    var t := Unregister(s, 0).(deliveries := [Delivery(0, x)]);
    var slots := DenseSlotMap([Slot(2, h), Slot(1, g)], 3);
    assert NextArrive(s, x, 0) == Running(t) by {
      assert s.filters[0].IsMatch(x) && [] + [Delivery(0, x)] == [Delivery(0, x)];
    }
    var all := DenseSlotMap([Slot(0, f), Slot(1, g), Slot(2, h)], 3);
    CodeRunSnoc(before, Step(Arrive(x), 0), s, all, Running(t), slots);
    OvertakingStep(before + [Step(Arrive(x), 0)], t, slots, m);
    assert [Delivery(0, x)] + [Delivery(2, m)] == [Delivery(0, x), Delivery(2, m)];
  }

  /** Two streams whose slots are not in the order of registration. */
  lemma {:induction false} OvertakingStep(steps: seq<Step>, s: State, filters: DenseSlotMap<GenericFilter>,
      m: GenericMessage)
    requires CodeRun(steps, Running(s), filters) && |filters.slots| > 0 && filters.slots[0].key in s.filters
    requires filters.slots[0].value.IsMatch(m) && s.filters[filters.slots[0].key] == filters.slots[0].value
    requires filters.slots[0].key in s.subscribers && s.subscribers[filters.slots[0].key].Stream?
    requires s.subscribers[filters.slots[0].key].chan !in s.closed
    ensures var k := filters.slots[0].key;
      CodeRun(steps + [Step(Arrive(m), k)],
              Running(s.(deliveries := s.deliveries + [Delivery(s.subscribers[k].chan, m)])), filters)
  {
    var k := filters.slots[0].key;
    CodeRunSnoc(steps, Step(Arrive(m), k), s, filters, NextArrive(s, m, k), filters);
  }

  /** A waiter and two streams. */
  function Registered(f: GenericFilter, g: GenericFilter, h: GenericFilter): State {
    State([], map[0 := f, 1 := g, 2 := h], map[0 := Oneshot(Some(0)), 1 := Stream(1), 2 := Stream(2)], [], {})
  }

  lemma {:induction false} ThreeRegister(f: GenericFilter, g: GenericFilter, h: GenericFilter)
    ensures var steps := [Step(Pull(f, 0), 0), Step(Listen(g, 1), 1), Step(Listen(h, 2), 2)];
      && Exec(AsWritten, steps) == Running(Registered(f, g, h))
      && CodeKeys(steps) && FiltersOf(steps) == DenseSlotMap([Slot(0, f), Slot(1, g), Slot(2, h)], 3)
  {
    var a, b, e := Step(Pull(f, 0), 0), Step(Listen(g, 1), 1), Step(Listen(h, 2), 2);
    var s1 := Register(INIT, 0, f, Oneshot(Some(0)));
    var s2 := Register(s1, 1, g, Stream(1));
    assert MatchIndexes(g, []) == [] && MatchIndexes(h, []) == [];
    ExecSnoc(AsWritten, [], a);
    CodeSnoc([], a, INIT);
    assert [] + [a] == [a];
    NothingBuffered(s1, g, 1, 1);
    ExecSnoc(AsWritten, [a], b);
    CodeSnoc([a], b, s1);
    assert [a] + [b] == [a, b];
    NothingBuffered(s2, h, 2, 2);
    ExecSnoc(AsWritten, [a, b], e);
    CodeSnoc([a, b], e, s2);
    assert [a, b] + [e] == [a, b, e];
  }

  lemma {:induction false} NothingBuffered(s: State, f: GenericFilter, c: ChanId, k: FilterKey)
    requires s.messages == []
    ensures NextListen(AsWritten, s, f, c, k) == Running(Register(s, k, f, Stream(c)))
  {
    assert MatchIndexes(f, []) == [];
    assert s.deliveries + SendAll(c, []) == s.deliveries;
  }
}
