/** What the program's own subscriptions get over a whole run, in terms of the fields of the messages. */
module RouterRequests {
  import opened Common
  import opened Proto
  import opened Messages
  import opened Drain
  import opened Router
  import opened RouterSafety
  import opened RouterDelivery
  import opened RouterIsolation
  import opened RouterAsWritten
  import opened RouterOneshots
  import Removal

  /** `got` is exactly the messages of `all` with the property, once each and in order. */
  ghost predicate Picks(got: Buffer, all: Buffer, keep: GenericMessage -> bool) {
    exists p: seq<nat> :: PicksAt(got, all, keep, p)
  }

  ghost predicate PicksAt(got: Buffer, all: Buffer, keep: GenericMessage -> bool, p: seq<nat>) {
    && (forall i, j :: 0 <= i < j < |p| ==> p[i] < p[j])
    && (forall i: nat :: i in p <==> i < |all| && keep(all[i]))
    && |got| == |p| && forall j :: 0 <= j < |p| ==> p[j] < |all| && got[j] == all[p[j]]
  }

  /** `got` is the first message of `all` with the property, or nothing if there is none. */
  ghost predicate First(got: Buffer, all: Buffer, keep: GenericMessage -> bool) {
    if got == [] then forall i :: 0 <= i < |all| ==> !keep(all[i])
    else exists i :: 0 <= i < |all| && got == [all[i]] && keep(all[i]) && forall j :: 0 <= j < i ==> !keep(all[j])
  }

  lemma {:induction false} SelectPicks(f: GenericFilter, ms: Buffer, keep: GenericMessage -> bool)
    requires forall m :: keep(m) <==> f.IsMatch(m)
    ensures Picks(Select(f, ms), ms, keep)
  {
    var p := MatchIndexes(f, ms);
    SplitByMatch(f, ms);
    Removal.WithinMeans(p, |ms|);
    Removal.AtLength(ms, p);
    forall j | 0 <= j < |p| ensures p[j] < |ms| && Select(f, ms)[j] == ms[p[j]] {
      Removal.AtIndex(ms, p, j);
    }
    assert PicksAt(Select(f, ms), ms, keep, p);
  }

  lemma {:induction false} HeadIsFirst(f: GenericFilter, ms: Buffer, keep: GenericMessage -> bool)
    requires forall m :: keep(m) <==> f.IsMatch(m)
    ensures First(Head(Select(f, ms)), ms, keep)
  {
    PullSelects(f, ms);
    PullFirstNone(f, ms);
    if PullFirst(f, ms).Some? {
      var i := FirstMatch(f, ms);
      PullFirstAt(f, ms, i);
      assert Head(Select(f, ms)) == [ms[i]];
    } else {
      assert Select(f, ms) == [];
    }
  }

  /** A stream for normal messages that no other subscription overlaps gets exactly the normal messages of the run
      that have what it names. */
  lemma {:induction false} NormalStreamGetsAll(mode: Mode, steps: seq<Step>, f: Filter, c: ChanId)
    requires FreshChans(steps) && Exec(mode, steps).Running? && (mode == Repaired || DrainsOne(mode, steps))
    requires Unrivalled(steps, FromFilter(f), c) && Lookup(steps, c).Some?
    ensures Picks(Log(Exec(mode, steps).state.deliveries, c), Arrivals(steps), (m: GenericMessage) =>
      && m.kind == Normal
      && (f.sourceAddr.Some? ==> m.sourceAddr == f.sourceAddr.value)
      && (f.appIndex.Some? ==> m.index == f.appIndex.value)
      && (f.opcode.Some? ==> m.content.opcode == f.opcode.value))
  {
    if mode == AsWritten {
      AsWrittenStreamGetsAll(steps, FromFilter(f), c);
    } else {
      UnrivalledStreamGetsAll(steps, FromFilter(f), c);
    }
    SelectPicks(FromFilter(f), Arrivals(steps), (m: GenericMessage) =>
      && m.kind == Normal
      && (f.sourceAddr.Some? ==> m.sourceAddr == f.sourceAddr.value)
      && (f.appIndex.Some? ==> m.index == f.appIndex.value)
      && (f.opcode.Some? ==> m.content.opcode == f.opcode.value));
  }

  /** The stream the sensor collection subscribes to: every message of one packet type under one application key. */
  lemma {:induction false} SensorStreamGetsReadings(mode: Mode, steps: seq<Step>, app: u16, op: Opcode, c: ChanId)
    requires FreshChans(steps) && Exec(mode, steps).Running? && (mode == Repaired || DrainsOne(mode, steps))
    requires Unrivalled(steps, FromFilter(Filter(None, Some(app), Some(op))), c) && Lookup(steps, c).Some?
    ensures Picks(Log(Exec(mode, steps).state.deliveries, c), Arrivals(steps),
                  (m: GenericMessage) => m.kind == Normal && m.index == app && m.content.opcode == op)
  {
    var f := FromFilter(Filter(None, Some(app), Some(op)));
    if mode == AsWritten {
      AsWrittenStreamGetsAll(steps, f, c);
    } else {
      UnrivalledStreamGetsAll(steps, f, c);
    }
    SelectPicks(f, Arrivals(steps),
                (m: GenericMessage) => m.kind == Normal && m.index == app && m.content.opcode == op);
  }

  /** `pull_msg` for a device, when no other subscription overlaps: the earliest device message of the run that has
      what the caller names and is of the packet type to be parsed. */
  lemma {:induction false} DevicePullGetsEarliest(mode: Mode, steps: seq<Step>, f: DevFilter, op: Opcode, c: ChanId)
    requires FreshChans(steps) && Exec(mode, steps).Running? && (mode == Repaired || DrainsOne(mode, steps))
    requires LoneWaiter(steps, PullMsgFilter(FromDevFilter(f), op), c) && Lookup(steps, c).Some?
    ensures First(Log(Exec(mode, steps).state.deliveries, c), Arrivals(steps), (m: GenericMessage) =>
      && m.kind == Device && m.content.opcode == op
      && (f.sourceAddr.Some? ==> m.sourceAddr == f.sourceAddr.value)
      && (f.netIndex.Some? ==> m.index == f.netIndex.value))
  {
    var g := PullMsgFilter(FromDevFilter(f), op);
    LoneWaiterGetsEarliest(mode, steps, g, c);
    HeadIsFirst(g, Arrivals(steps), (m: GenericMessage) =>
      && m.kind == Device && m.content.opcode == op
      && (f.sourceAddr.Some? ==> m.sourceAddr == f.sourceAddr.value)
      && (f.netIndex.Some? ==> m.index == f.netIndex.value));
  }
}
