/** Messages, filters, and the removal of matching messages from the buffer
    (src/mesh/message_queue.rs: `is_match`, `iter_filter`, `try_pull_one`, `try_pull_many`). */
module Messages {
  import opened Common
  import opened Proto

  datatype MessageKind = Device | Normal

  /** `arrival` is the message's position in the order of arrival. It stands for the identity of the moved
      Rust value; no step of the router reads it. */
  datatype GenericMessage = GenericMessage(
    sourceAddr: u16, received: u32, kind: MessageKind, content: Message, index: u16, arrival: nat)

  datatype GenericFilter = GenericFilter(
    sourceAddr: Option<u16>, index: Option<u16>, opcode: Option<Opcode>, kind: MessageKind)
  {
    predicate IsMatch(m: GenericMessage) {
      && m.kind == kind
      && (sourceAddr.Some? ==> sourceAddr.value == m.sourceAddr)
      && (opcode.Some? ==> opcode.value == m.content.opcode)
      && (index.Some? ==> index.value == m.index)
    }
  }

  datatype DevFilter = DevFilter(sourceAddr: Option<u16>, netIndex: Option<u16>, opcode: Option<Opcode>)

  datatype Filter = Filter(sourceAddr: Option<u16>, appIndex: Option<u16>, opcode: Option<Opcode>)

  function FromDevFilter(f: DevFilter): GenericFilter {
    GenericFilter(f.sourceAddr, f.netIndex, f.opcode, Device)
  }

  function FromFilter(f: Filter): GenericFilter {
    GenericFilter(f.sourceAddr, f.appIndex, f.opcode, Normal)
  }

  /** What the sender says of a message it pushes. */
  datatype MessageMeta =
    | DeviceMeta(sourceAddr: u16, netIndex: u16)
    | NormalMeta(sourceAddr: u16, appIndex: u16)

  /** `GenericMessage::new`, at the time `received`. */
  function FromMeta(content: Message, meta: MessageMeta, received: u32, arrival: nat): GenericMessage {
    match meta
    case DeviceMeta(source, net) => GenericMessage(source, received, Device, content, net, arrival)
    case NormalMeta(source, app) => GenericMessage(source, received, Normal, content, app, arrival)
  }

  // ----- what a filter can tell -----

  function Name<T>(named: bool, x: T): Option<T> {
    if named then Some(x) else None
  }

  /** A filter matches a message exactly when it is one of the eight filters that can be made of the message's own
      kind, address, index and opcode. */
  lemma {:induction false} MatchIff(f: GenericFilter, m: GenericMessage)
    ensures f.IsMatch(m) <==>
      exists a, b, c :: f == GenericFilter(Name(a, m.sourceAddr), Name(b, m.index), Name(c, m.content.opcode), m.kind)
  {
    assert f.IsMatch(m) ==>
      f == GenericFilter(
        Name(f.sourceAddr.Some?, m.sourceAddr), Name(f.index.Some?, m.index),
        Name(f.opcode.Some?, m.content.opcode), m.kind);
  }

  /** Nothing else of a message counts. */
  lemma {:induction false} SameFieldsMatchAlike(f: GenericFilter, x: GenericMessage, y: GenericMessage)
    requires x.kind == y.kind && x.sourceAddr == y.sourceAddr && x.index == y.index
    requires x.content.opcode == y.content.opcode
    ensures f.IsMatch(x) <==> f.IsMatch(y)
  {
  }

  /** A filter of the caller that names everything picks out exactly the messages pushed with that address, index and
      opcode, on its own channel of the mesh. */
  lemma {:induction false} FullFiltersMatchIff(source: u16, index: u16, op: Opcode, content: Message, meta: MessageMeta,
      received: u32, arrival: nat)
    ensures var m := FromMeta(content, meta, received, arrival);
      && (FromDevFilter(DevFilter(Some(source), Some(index), Some(op))).IsMatch(m)
          <==> meta == DeviceMeta(source, index) && content.opcode == op)
      && (FromFilter(Filter(Some(source), Some(index), Some(op))).IsMatch(m)
          <==> meta == NormalMeta(source, index) && content.opcode == op)
  {
  }

  /** A filter that names nothing lets everything of its channel through. */
  lemma {:induction false} EmptyFiltersMatchIff(content: Message, meta: MessageMeta, received: u32, arrival: nat)
    ensures FromDevFilter(DevFilter(None, None, None)).IsMatch(FromMeta(content, meta, received, arrival))
            <==> meta.DeviceMeta?
    ensures FromFilter(Filter(None, None, None)).IsMatch(FromMeta(content, meta, received, arrival))
            <==> meta.NormalMeta?
  {
  }
}

/** Removing several elements of a vector by index, one after the other (`Vec::remove`). */
module Removal {
  import opened Common

  /** Removing the given indexes one after the other, each from what the earlier removals left: the removed
      elements and the rest, or `None` when an index is out of bounds. */
  function RemoveEach<T>(xs: seq<T>, r: seq<nat>): Option<(seq<T>, seq<T>)> {
    if r == [] then Some(([], xs))
    else
      match RemoveEach(xs, r[..|r| - 1])
      case None => None
      case Some((taken, rest)) =>
        var i := r[|r| - 1];
        if i < |rest| then Some((taken + [rest[i]], rest[..i] + rest[i + 1..])) else None
  }

  /** The positions of the original vector that removing the indexes `r` in turn touches. */
  function Positions(r: seq<nat>): (p: seq<nat>)
    ensures |p| == |r| && forall j :: 0 <= j < |r| ==> p[j] == r[j] + j
  {
    if r == [] then [] else Positions(r[..|r| - 1]) + [r[|r| - 1] + |r| - 1]
  }

  /** `p` is strictly increasing and below `n`. */
  predicate Within(p: seq<nat>, n: nat) {
    p == [] || (p[|p| - 1] < n && Within(p[..|p| - 1], p[|p| - 1]))
  }

  lemma {:induction false} WithinMeans(p: seq<nat>, n: nat)
    ensures Within(p, n) <==>
      (forall j :: 0 <= j < |p| ==> p[j] < n) && (forall i, j :: 0 <= i < j < |p| ==> p[i] < p[j])
  {
    if p != [] {
      WithinMeans(p[..|p| - 1], p[|p| - 1]);
    }
  }

  function At<T>(xs: seq<T>, p: seq<nat>): seq<T>
    requires Within(p, |xs|)
  {
    if p == [] then []
    else
      var last := p[|p| - 1];
      At(xs[..last], p[..|p| - 1]) + [xs[last]]
  }

  /** `xs` without the positions in `p`, the others in order. */
  function Without<T>(xs: seq<T>, p: seq<nat>): seq<T>
    requires Within(p, |xs|)
  {
    if p == [] then xs
    else
      var last := p[|p| - 1];
      Without(xs[..last], p[..|p| - 1]) + xs[last + 1..]
  }

  predicate NonDecreasing(r: seq<nat>) {
    forall i, j :: 0 <= i < j < |r| ==> r[i] <= r[j]
  }

  /** Removing the indexes `r_0 <= r_1 <= ...` in turn removes the original positions `r_j + j`, and goes out
      of bounds exactly when one of them reaches the original length. */
  lemma {:induction false} RemovalLaw<T>(xs: seq<T>, r: seq<nat>)
    requires NonDecreasing(r)
    ensures RemoveEach(xs, r).Some? <==> Within(Positions(r), |xs|)
    ensures RemoveEach(xs, r).Some? ==>
      RemoveEach(xs, r).value == (At(xs, Positions(r)), Without(xs, Positions(r)))
  {
    if r != [] {
      var k := |r| - 1;
      var p := Positions(r[..k]);
      assert Positions(r)[..k] == p;
      var next := r[k] + k;
      assert Positions(r) == p + [next];
      RemovalLaw(xs, r[..k]);
      assert k > 0 ==> p[k - 1] == r[k - 1] + (k - 1) < next;
      if Within(p, |xs|) {
        assert Within(p, next);
        RemoveNext(xs, p, next);
        assert RemoveEach(xs, r[..k]) == Some((At(xs, p), Without(xs, p)));
        assert Within(p + [next], |xs|) <==> next < |xs|;
      } else {
        assert !Within(p + [next], |xs|);
      }
    }
  }

  lemma {:induction false} WithoutLength<T>(xs: seq<T>, p: seq<nat>)
    requires Within(p, |xs|)
    ensures |p| <= |xs| && |Without(xs, p)| == |xs| - |p|
    decreases |p|
  {
    if p != [] {
      var k := |p| - 1;
      WithoutLength(xs[..p[k]], p[..k]);
    }
  }

  lemma {:induction false} CutOne<T>(before: seq<T>, tail: seq<T>, i: nat)
    requires i < |tail|
    ensures (before + tail)[|before| + i] == tail[i]
    ensures (before + tail)[..|before| + i] == before + tail[..i]
    ensures (before + tail)[|before| + i + 1..] == tail[i + 1..]
  {
  }

  /** Beyond the last removed position the rest is the original vector, moved by the number of removals. */
  lemma {:induction false} WithoutSplit<T>(xs: seq<T>, p: seq<nat>, next: nat)
    requires Within(p, |xs|) && Within(p, next) && next <= |xs|
    ensures |p| <= next
    ensures At(xs[..next], p) == At(xs, p)
    ensures Without(xs, p) == Without(xs[..next], p) + xs[next..]
  {
    if p == [] {
      assert xs == xs[..next] + xs[next..];
    } else {
      var last := p[|p| - 1];
      WithoutLength(xs[..next], p);
      assert xs[..next][..last] == xs[..last];
      assert xs[last + 1..] == xs[..next][last + 1..] + xs[next..];
    }
  }

  /** So removing there takes the original element. */
  lemma {:induction false} RemoveNext<T>(xs: seq<T>, p: seq<nat>, next: nat)
    requires Within(p, |xs|) && Within(p, next)
    ensures |p| <= next
    ensures |Without(xs, p)| == |xs| - |p|
    ensures next < |xs| ==>
      var rest := Without(xs, p);
      var i := next - |p|;
      && At(xs[..next], p) == At(xs, p)
      && rest[i] == xs[next]
      && rest[..i] + rest[i + 1..] == Without(xs[..next], p) + xs[next + 1..]
  {
    WithoutLength(xs, p);
    if next < |xs| {
      WithoutSplit(xs, p, next);
      WithoutLength(xs[..next], p);
      CutOne(Without(xs[..next], p), xs[next..], 0);
    }
  }

  lemma {:induction false} AtLength<T>(xs: seq<T>, p: seq<nat>)
    requires Within(p, |xs|)
    ensures |At(xs, p)| == |p|
    decreases |p|
  {
    if p != [] {
      AtLength(xs[..p[|p| - 1]], p[..|p| - 1]);
    }
  }

  lemma {:induction false} AtIndex<T>(xs: seq<T>, p: seq<nat>, j: nat)
    requires Within(p, |xs|) && j < |p|
    ensures |At(xs, p)| == |p| && p[j] < |xs| && At(xs, p)[j] == xs[p[j]]
    decreases |p|
  {
    var k := |p| - 1;
    if k > 0 {
      AtIndex(xs[..p[k]], p[..k], if j < k then j else 0);
    }
  }

  lemma {:induction false} WithoutAppend<T>(xs: seq<T>, p: seq<nat>, x: T)
    requires Within(p, |xs|)
    ensures Within(p, |xs| + 1)
    ensures Without(xs + [x], p) == Without(xs, p) + [x] && At(xs + [x], p) == At(xs, p)
  {
    if p != [] {
      var last := p[|p| - 1];
      assert (xs + [x])[..last] == xs[..last];
      assert (xs + [x])[last + 1..] == xs[last + 1..] + [x];
    }
  }

  lemma {:induction false} WithoutKeeps<T>(xs: seq<T>, p: seq<nat>, i: nat)
    requires Within(p, |xs|)
    requires i < |xs| && i !in p
    ensures xs[i] in Without(xs, p)
    decreases |p|
  {
    if p != [] {
      var k := |p| - 1;
      if i < p[k] {
        WithoutKeeps(xs[..p[k]], p[..k], i);
        assert xs[..p[k]][i] == xs[i];
      } else {
        assert i != p[k];
        assert xs[p[k] + 1..][i - p[k] - 1] == xs[i];
      }
    }
  }

  /** Every successive removal conserves the elements. */
  lemma {:induction false} RemoveEachConserves<T>(xs: seq<T>, r: seq<nat>)
    requires RemoveEach(xs, r).Some?
    ensures var (taken, rest) := RemoveEach(xs, r).value; multiset(xs) == multiset(taken) + multiset(rest)
  {
    if r != [] {
      RemoveEachConserves(xs, r[..|r| - 1]);
      var (taken, rest) := RemoveEach(xs, r[..|r| - 1]).value;
      RemoveOneConserves(taken, rest, r[|r| - 1]);
    }
  }

  lemma {:induction false} RemoveOneConserves<T>(taken: seq<T>, rest: seq<T>, i: nat)
    requires i < |rest|
    ensures multiset(taken) + multiset(rest)
            == multiset(taken + [rest[i]]) + multiset(rest[..i] + rest[i + 1..])
  {
    assert rest == rest[..i] + [rest[i]] + rest[i + 1..];
  }

  /** A failing prefix makes the whole fail. */
  lemma {:induction false} RemoveEachStopsAt<T>(xs: seq<T>, r: seq<nat>, k: nat)
    requires k <= |r| && RemoveEach(xs, r[..k]).None?
    ensures RemoveEach(xs, r).None?
    decreases |r|
  {
    if k < |r| {
      assert r[..|r| - 1][..k] == r[..k];
      RemoveEachStopsAt(xs, r[..|r| - 1], k);
    } else {
      assert r[..k] == r;
    }
  }

  lemma {:induction false} RemoveTwo<T>(a: T, b: T, c: T)
    ensures RemoveEach([a, b, c], [0, 1]) == Some(([a, c], [b]))
  {
    var xs := [a, b, c];
    var r := [0, 1];
    assert r[..1] == [0] && [0][..0] == [];
    assert xs[..0] + xs[1..] == [b, c] && [] + [a] == [a];
    assert RemoveEach(xs, [0]) == Some(([a], [b, c]));
    assert [b, c][..1] + [b, c][2..] == [b] && [a] + [c] == [a, c];
  }

  /** The repair: at the j-th removal, index `p_j - j`, so that position `p_j` goes. */
  function Shifted(p: seq<nat>, n: nat): (r: seq<nat>)
    requires Within(p, n)
    ensures |r| == |p|
    ensures p != [] ==> |p| <= p[|p| - 1] + 1 && r[|p| - 1] == p[|p| - 1] - (|p| - 1)
  {
    if p == [] then []
    else
      var k := |p| - 1;
      Shifted(p[..k], p[k]) + [p[k] - k]
  }

  lemma {:induction false} PositionsSnoc(r: seq<nat>, i: nat)
    ensures Positions(r + [i]) == Positions(r) + [i + |r|]
  {
    assert (r + [i])[..|r + [i]| - 1] == r;
  }

  lemma {:induction false} ShiftedPositions(p: seq<nat>, n: nat)
    requires Within(p, n)
    ensures Positions(Shifted(p, n)) == p
  {
    if p != [] {
      var k := |p| - 1;
      var r := Shifted(p[..k], p[k]);
      assert |r| == k && Positions(r) == p[..k] by {
        ShiftedPositions(p[..k], p[k]);
      }
      PositionsSnoc(r, p[k] - k);
      assert p[..k] + [p[k]] == p;
    }
  }

  lemma {:induction false} ShiftedNonDecreasing(p: seq<nat>, n: nat)
    requires Within(p, n)
    ensures NonDecreasing(Shifted(p, n))
    ensures p != [] ==> forall j :: 0 <= j < |p| ==> Shifted(p, n)[j] <= p[|p| - 1] - (|p| - 1)
  {
    if p != [] {
      var k := |p| - 1;
      var r := Shifted(p[..k], p[k]);
      ShiftedNonDecreasing(p[..k], p[k]);
      assert forall j :: 0 <= j < k ==> Shifted(p, n)[j] == r[j];
      assert k > 0 ==> p[k - 1] - (k - 1) <= p[k] - k;
    }
  }
}

module Drain {
  import opened Common
  import opened Messages
  import opened Removal

  type Buffer = seq<GenericMessage>

  // ----- what a drain should do -----

  function Select(f: GenericFilter, ms: Buffer): Buffer {
    if ms == [] then []
    else
      var front, m := ms[..|ms| - 1], ms[|ms| - 1];
      if f.IsMatch(m) then Select(f, front) + [m] else Select(f, front)
  }

  function Reject(f: GenericFilter, ms: Buffer): Buffer {
    if ms == [] then []
    else
      var front, m := ms[..|ms| - 1], ms[|ms| - 1];
      if f.IsMatch(m) then Reject(f, front) else Reject(f, front) + [m]
  }

  // ----- what the code does -----

  /** The indexes `iter_filter` yields. */
  function MatchIndexes(f: GenericFilter, ms: Buffer): (r: seq<nat>)
    ensures Within(r, |ms|)
    ensures forall i :: i in r <==> 0 <= i < |ms| && f.IsMatch(ms[i])
  {
    if ms == [] then []
    else
      var n := |ms| - 1;
      var r := MatchIndexes(f, ms[..n]);
      assert forall i :: 0 <= i < n ==> ms[..n][i] == ms[i];
      if f.IsMatch(ms[n]) then
        assert (r + [n])[..|r|] == r;
        r + [n]
      else r
  }

  /** `collect` of `iter_filter`. */
  method IterFilter(f: GenericFilter, ms: Buffer) returns (r: seq<nat>)
    ensures r == MatchIndexes(f, ms)
  {
    r := [];
    for i := 0 to |ms|
      invariant r == MatchIndexes(f, ms[..i])
    {
      assert ms[..i + 1][..i] == ms[..i];
      if f.IsMatch(ms[i]) {
        r := r + [i];
      }
    }
    assert ms[..|ms|] == ms;
  }

  /** The loop of `try_pull_many` as written: indexes computed before any removal. */
  function DrainAsWritten(f: GenericFilter, ms: Buffer): Option<(Buffer, Buffer)> {
    RemoveEach(ms, MatchIndexes(f, ms))
  }

  /** The repaired loop, removing index `i_j - j` at the j-th removal. */
  function DrainRepaired(f: GenericFilter, ms: Buffer): Option<(Buffer, Buffer)> {
    RemoveEach(ms, Shifted(MatchIndexes(f, ms), |ms|))
  }

  // ----- what it achieves -----

  lemma {:induction false} MatchIndexesIncrease(f: GenericFilter, ms: Buffer)
    ensures forall i, j :: 0 <= i < j < |MatchIndexes(f, ms)| ==> MatchIndexes(f, ms)[i] < MatchIndexes(f, ms)[j]
  {
    WithinMeans(MatchIndexes(f, ms), |ms|);
  }

  ghost predicate PastEnd(idx: seq<nat>, n: nat) {
    exists j :: 0 <= j < |idx| && idx[j] + j >= n
  }

  /** Exact law of the loop as written: it takes the positions `i_j + j`, whatever is there, and panics exactly
      when one of them reaches the length of the buffer. */
  lemma {:induction false} DrainAsWrittenLaw(f: GenericFilter, ms: Buffer)
    ensures DrainAsWritten(f, ms).None? <==> PastEnd(MatchIndexes(f, ms), |ms|)
    ensures DrainAsWritten(f, ms).Some? ==>
      var p := Positions(MatchIndexes(f, ms));
      Within(p, |ms|) && DrainAsWritten(f, ms).value == (At(ms, p), Without(ms, p))
  {
    var idx := MatchIndexes(f, ms);
    MatchIndexesIncrease(f, ms);
    RemovalLaw(ms, idx);
    PositionsWithin(idx, |ms|);
  }

  lemma {:induction false} PositionsWithin(idx: seq<nat>, n: nat)
    requires forall i, j :: 0 <= i < j < |idx| ==> idx[i] < idx[j]
    ensures Within(Positions(idx), n) <==> !PastEnd(idx, n)
  {
    var p := Positions(idx);
    WithinMeans(p, n);
    forall i, j | 0 <= i < j < |p| ensures p[i] < p[j] {
      assert idx[i] < idx[j];
    }
    if PastEnd(idx, n) {
      var j :| 0 <= j < |idx| && idx[j] + j >= n;
      assert p[j] >= n;
    } else {
      forall j | 0 <= j < |p| ensures p[j] < n {
        assert !(idx[j] + j >= n);
      }
    }
  }

  lemma {:induction false} Snoc(f: GenericFilter, a: Buffer, m: GenericMessage)
    ensures Select(f, a + [m]) == if f.IsMatch(m) then Select(f, a) + [m] else Select(f, a)
    ensures Reject(f, a + [m]) == if f.IsMatch(m) then Reject(f, a) else Reject(f, a) + [m]
    ensures MatchIndexes(f, a + [m]) == if f.IsMatch(m) then MatchIndexes(f, a) + [|a|] else MatchIndexes(f, a)
  {
    assert (a + [m])[..|a + [m]| - 1] == a;
  }

  lemma {:induction false} AtAppend<T>(xs: seq<T>, p: seq<nat>, x: T)
    requires Within(p, |xs|)
    ensures Within(p + [|xs|], |xs| + 1)
    ensures At(xs + [x], p + [|xs|]) == At(xs, p) + [x]
    ensures Without(xs + [x], p + [|xs|]) == Without(xs, p)
  {
    var q, ys := p + [|xs|], xs + [x];
    assert q[..|q| - 1] == p && ys[..|xs|] == xs && ys[|xs| + 1..] == [];
  }

  /** The matching positions hold the matches, and leaving them out leaves the others. */
  lemma {:induction false} SplitByMatch(f: GenericFilter, ms: Buffer)
    ensures At(ms, MatchIndexes(f, ms)) == Select(f, ms)
    ensures Without(ms, MatchIndexes(f, ms)) == Reject(f, ms)
  {
    if ms != [] {
      var front, m := ms[..|ms| - 1], ms[|ms| - 1];
      assert ms == front + [m];
      SplitByMatch(f, front);
      Snoc(f, front, m);
      if f.IsMatch(m) {
        AtAppend(front, MatchIndexes(f, front), m);
      } else {
        WithoutAppend(front, MatchIndexes(f, front), m);
      }
    }
  }

  /** The repaired loop never fails, delivers exactly the matches and leaves exactly the others, in order. */
  lemma {:induction false} DrainRepairedLaw(f: GenericFilter, ms: Buffer)
    ensures DrainRepaired(f, ms) == Some((Select(f, ms), Reject(f, ms)))
  {
    var idx := MatchIndexes(f, ms);
    ShiftedNonDecreasing(idx, |ms|);
    ShiftedPositions(idx, |ms|);
    RemovalLaw(ms, Shifted(idx, |ms|));
    SplitByMatch(f, ms);
  }

  lemma {:induction false} SelectMembers(f: GenericFilter, ms: Buffer)
    ensures forall m :: m in Select(f, ms) <==> m in ms && f.IsMatch(m)
    ensures forall m :: m in Reject(f, ms) <==> m in ms && !f.IsMatch(m)
  {
    if ms != [] {
      var front, m := ms[..|ms| - 1], ms[|ms| - 1];
      assert ms == front + [m];
      SelectMembers(f, front);
      Snoc(f, front, m);
    }
  }

  lemma {:induction false} SelectCounts(f: GenericFilter, ms: Buffer)
    ensures multiset(ms) == multiset(Select(f, ms)) + multiset(Reject(f, ms))
    ensures |Select(f, ms)| == |MatchIndexes(f, ms)|
  {
    if ms != [] {
      var front, m := ms[..|ms| - 1], ms[|ms| - 1];
      assert ms == front + [m];
      SelectCounts(f, front);
      Snoc(f, front, m);
    }
  }

  lemma {:induction false} SelectProperties(f: GenericFilter, ms: Buffer)
    ensures forall m :: m in Select(f, ms) <==> m in ms && f.IsMatch(m)
    ensures forall m :: m in Reject(f, ms) <==> m in ms && !f.IsMatch(m)
    ensures multiset(ms) == multiset(Select(f, ms)) + multiset(Reject(f, ms))
    ensures |Select(f, ms)| == |MatchIndexes(f, ms)|
  {
    SelectMembers(f, ms);
    SelectCounts(f, ms);
  }

  /** With two or more matches the loop as written fails or leaves a match in the buffer. */
  lemma {:induction false} AsWrittenStrands(f: GenericFilter, ms: Buffer)
    requires |MatchIndexes(f, ms)| >= 2
    ensures DrainAsWritten(f, ms).Some? ==> exists m :: m in DrainAsWritten(f, ms).value.1 && f.IsMatch(m)
  {
    if DrainAsWritten(f, ms).Some? {
      var idx := MatchIndexes(f, ms);
      var p := Positions(idx);
      DrainAsWrittenLaw(f, ms);
      MatchIndexesIncrease(f, ms);
      assert idx[1] !in p by {
        assert forall j :: 0 <= j < |idx| ==> p[j] == idx[j] + j;
      }
      assert idx[1] in idx;
      WithoutKeeps(ms, p, idx[1]);
    }
  }

  /** A loop as written that does not fail delivers only matches exactly when there is at most one: the last
      position it takes lies beyond the last match. */
  lemma {:induction false} AsWrittenDeliversMatchesIff(f: GenericFilter, ms: Buffer)
    requires DrainAsWritten(f, ms).Some?
    ensures (forall m :: m in DrainAsWritten(f, ms).value.0 ==> f.IsMatch(m)) <==> |MatchIndexes(f, ms)| <= 1
  {
    var idx := MatchIndexes(f, ms);
    var p := Positions(idx);
    DrainAsWrittenLaw(f, ms);
    if |idx| <= 1 {
      AsWrittenCorrectIff(f, ms);
      SelectMembers(f, ms);
    } else {
      var k := |idx| - 1;
      MatchIndexesIncrease(f, ms);
      AtIndex(ms, p, k);
      assert p[k] !in idx;
      assert At(ms, p)[k] in DrainAsWritten(f, ms).value.0;
    }
  }

  /** Exactly when at most one buffered message matches does the loop as written do what it should. */
  lemma {:induction false} AsWrittenCorrectIff(f: GenericFilter, ms: Buffer)
    ensures DrainAsWritten(f, ms) == Some((Select(f, ms), Reject(f, ms))) <==> |MatchIndexes(f, ms)| <= 1
  {
    var idx := MatchIndexes(f, ms);
    if |idx| <= 1 {
      DrainRepairedLaw(f, ms);
      assert idx == [] || idx[..0] == [];
      assert Shifted(idx, |ms|) == idx;
    } else if DrainAsWritten(f, ms).Some? {
      AsWrittenStrands(f, ms);
      var m :| m in DrainAsWritten(f, ms).value.1 && f.IsMatch(m);
      SelectProperties(f, ms);
      assert m !in Reject(f, ms);
    }
  }

  // ----- the first match -----

  /** The earliest buffered match and the buffer without it. */
  function PullFirst(f: GenericFilter, ms: Buffer): Option<(GenericMessage, Buffer)> {
    if ms == [] then None
    else if f.IsMatch(ms[0]) then Some((ms[0], ms[1..]))
    else
      match PullFirst(f, ms[1..])
      case None => None
      case Some((m, rest)) => Some((m, [ms[0]] + rest))
  }

  lemma {:induction false} PullFirstAt(f: GenericFilter, ms: Buffer, i: nat)
    requires i < |ms| && f.IsMatch(ms[i])
    requires forall j :: 0 <= j < i ==> !f.IsMatch(ms[j])
    ensures PullFirst(f, ms) == Some((ms[i], ms[..i] + ms[i + 1..]))
  {
    if i == 0 {
      assert ms[..i] + ms[i + 1..] == ms[1..];
    } else {
      var tail := ms[1..];
      assert forall j :: 0 <= j < |tail| ==> tail[j] == ms[j + 1];
      PullFirstAt(f, tail, i - 1);
      assert tail[i - 1] == ms[i];
      assert ms[..i] + ms[i + 1..] == [ms[0]] + (tail[..i - 1] + tail[i - 1 + 1..]);
    }
  }

  lemma {:induction false} PullFirstNone(f: GenericFilter, ms: Buffer)
    ensures PullFirst(f, ms).None? <==> forall m :: m in ms ==> !f.IsMatch(m)
  {
    if ms != [] {
      PullFirstNone(f, ms[1..]);
      assert ms == [ms[0]] + ms[1..];
    }
  }

  lemma {:induction false} PullFirstProperties(f: GenericFilter, ms: Buffer)
    requires PullFirst(f, ms).Some?
    ensures var (m, rest) := PullFirst(f, ms).value;
      && m in ms && f.IsMatch(m)
      && multiset(ms) == multiset{m} + multiset(rest)
      && forall x :: x in rest ==> x in ms
  {
    assert ms == [ms[0]] + ms[1..];
    if !f.IsMatch(ms[0]) {
      PullFirstProperties(f, ms[1..]);
    }
  }
}
