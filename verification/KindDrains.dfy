/** What the drain as written of one kind of messages has to do with messages of the other kind. */
module KindDrains {
  import opened Common
  import opened Messages
  import opened Drain
  import opened Removal
  import opened RouterIsolation

  /** One of the positions holds a message of another kind. */
  ghost predicate HitsOtherKind(ms: Buffer, p: seq<nat>, kind: MessageKind) {
    exists j :: 0 <= j < |p| && p[j] < |ms| && ms[p[j]].kind != kind
  }

  /** A drain as written that does not fail takes a message of the other kind, and so disturbs that kind, exactly
      when one stands at a match's index moved by the number of matches before it. */
  lemma {:induction false} AsWrittenMixesKindsIff(f: GenericFilter, ms: Buffer)
    requires DrainAsWritten(f, ms).Some?
    ensures (exists m :: m in DrainAsWritten(f, ms).value.0 && m.kind != f.kind)
            <==> HitsOtherKind(ms, Positions(MatchIndexes(f, ms)), f.kind)
  {
    DrainAsWrittenLaw(f, ms);
    OtherKindTaken(ms, Positions(MatchIndexes(f, ms)), f.kind);
  }

  lemma {:induction false} OtherKindTaken(ms: Buffer, p: seq<nat>, kind: MessageKind)
    requires Within(p, |ms|)
    ensures (exists m :: m in At(ms, p) && m.kind != kind) <==> HitsOtherKind(ms, p, kind)
  {
    var taken := At(ms, p);
    AtLength(ms, p);
    forall j | 0 <= j < |p| ensures p[j] < |ms| && taken[j] == ms[p[j]] {
      AtIndex(ms, p, j);
    }
    assert forall j :: 0 <= j < |p| ==> taken[j] in taken;
  }

  // ----- positions among the messages of one kind -----

  /** How many messages of the kind come before position `i`. */
  function Rank(ms: Buffer, i: nat, kind: MessageKind): nat
    requires i <= |ms|
  {
    |OfKind(ms[..i], kind)|
  }

  lemma {:induction false} RankNext(ms: Buffer, i: nat, kind: MessageKind)
    requires i < |ms|
    ensures OfKind(ms[..i + 1], kind)
            == if ms[i].kind == kind then OfKind(ms[..i], kind) + [ms[i]] else OfKind(ms[..i], kind)
  {
    assert ms[..i + 1] == ms[..i] + [ms[i]];
    OfKindSnoc(ms[..i], ms[i], kind);
  }

  /** A message of the kind stands at its rank among them. */
  lemma {:induction false} RankIsPosition(ms: Buffer, i: nat, kind: MessageKind)
    requires i < |ms| && ms[i].kind == kind
    ensures var own, r := OfKind(ms, kind), Rank(ms, i, kind);
      && r < |own| && own[r] == ms[i]
      && own[..r] == OfKind(ms[..i], kind) && own[r + 1..] == OfKind(ms[i + 1..], kind)
  {
    RankNext(ms, i, kind);
    assert ms == ms[..i + 1] + ms[i + 1..];
    OfKindAppend(ms[..i + 1], ms[i + 1..], kind);
    var before := OfKind(ms[..i], kind);
    assert OfKind(ms, kind) == before + [ms[i]] + OfKind(ms[i + 1..], kind);
  }

  /** And every one of them is one of the messages of the kind. */
  lemma {:induction false} PositionOfRank(ms: Buffer, r: nat, kind: MessageKind) returns (i: nat)
    requires r < |OfKind(ms, kind)|
    ensures i < |ms| && ms[i].kind == kind && Rank(ms, i, kind) == r && OfKind(ms, kind)[r] == ms[i]
  {
    var n := |ms| - 1;
    assert ms[..n + 1] == ms;
    RankNext(ms, n, kind);
    if r == |OfKind(ms[..n], kind)| {
      i := n;
    } else {
      i := PositionOfRank(ms[..n], r, kind);
      assert ms[..n][..i] == ms[..i];
    }
  }

  predicate AllOfKind(ms: Buffer, i: nat, k: nat, kind: MessageKind)
    requires k <= |ms|
  {
    forall h :: i <= h < k ==> ms[h].kind == kind
  }

  /** Ranks grow as fast as positions exactly when all messages in between are of the kind. */
  lemma {:induction false} RankGap(ms: Buffer, i: nat, k: nat, kind: MessageKind)
    requires i <= k <= |ms|
    ensures Rank(ms, i, kind) <= Rank(ms, k, kind) <= Rank(ms, i, kind) + (k - i)
    ensures Rank(ms, k, kind) == Rank(ms, i, kind) + (k - i) <==> AllOfKind(ms, i, k, kind)
    decreases k
  {
    if i < k {
      RankGap(ms, i, k - 1, kind);
      RankNext(ms, k - 1, kind);
    }
  }

  /** The ranks of the positions `p`. */
  function Ranks(ms: Buffer, p: seq<nat>, kind: MessageKind): (r: seq<nat>)
    requires Within(p, |ms|)
    ensures |r| == |p|
    decreases |p|
  {
    if p == [] then []
    else
      var last := p[|p| - 1];
      Ranks(ms[..last], p[..|p| - 1], kind) + [Rank(ms, last, kind)]
  }

  lemma {:induction false} RanksAt(ms: Buffer, p: seq<nat>, kind: MessageKind, j: nat)
    requires Within(p, |ms|) && j < |p|
    ensures p[j] < |ms| && Ranks(ms, p, kind)[j] == Rank(ms, p[j], kind)
    decreases |p|
  {
    var k := |p| - 1;
    if j < k {
      RanksAt(ms[..p[k]], p[..k], kind, j);
      assert ms[..p[k]][..p[j]] == ms[..p[j]];
    }
  }

  lemma {:induction false} RanksBelow(ms: Buffer, p: seq<nat>, n: nat, kind: MessageKind)
    requires Within(p, n) && n <= |ms| && Within(p, |ms|)
    ensures Ranks(ms, p, kind) == Ranks(ms[..n], p, kind)
  {
    if p != [] {
      assert ms[..n][..p[|p| - 1]] == ms[..p[|p| - 1]];
    }
  }

  /** Removing messages of the kind removes their ranks among the messages of the kind. */
  lemma {:induction false} RemovingRanks(ms: Buffer, p: seq<nat>, kind: MessageKind)
    requires Within(p, |ms|) && !HitsOtherKind(ms, p, kind)
    ensures var own, r := OfKind(ms, kind), Ranks(ms, p, kind);
      && Within(r, |own|)
      && At(own, r) == At(ms, p) && Without(own, r) == OfKind(Without(ms, p), kind)
    decreases |p|
  {
    if p != [] {
      var k := |p| - 1;
      var last := p[k];
      assert ms[last].kind == kind;
      RestHits(ms, p, kind);
      RemovingRanks(ms[..last], p[..k], kind);
      RankIsPosition(ms, last, kind);
      assert Ranks(ms, p, kind)[..k] == Ranks(ms[..last], p[..k], kind);
      OfKindAppend(Without(ms[..last], p[..k]), ms[last + 1..], kind);
    }
  }

  lemma {:induction false} RestHits(ms: Buffer, p: seq<nat>, kind: MessageKind)
    requires Within(p, |ms|) && p != [] && !HitsOtherKind(ms, p, kind)
    ensures !HitsOtherKind(ms[..p[|p| - 1]], p[..|p| - 1], kind)
  {
    var front, q := ms[..p[|p| - 1]], p[..|p| - 1];
    forall j | 0 <= j < |q| && q[j] < |front| ensures front[q[j]].kind == kind {
      assert q[j] == p[j] && front[q[j]] == ms[p[j]];
    }
  }

  /** The matching indexes among the messages of the filter's kind are the ranks of the matching indexes. */
  lemma {:induction false} MatchRanks(f: GenericFilter, ms: Buffer)
    ensures MatchIndexes(f, OfKind(ms, f.kind)) == Ranks(ms, MatchIndexes(f, ms), f.kind)
  {
    if ms != [] {
      var n := |ms| - 1;
      MatchRanks(f, ms[..n]);
      assert ms == ms[..n] + [ms[n]];
      MatchRanksSnoc(f, ms[..n], ms[n]);
    }
  }

  lemma {:induction false} MatchRanksSnoc(f: GenericFilter, front: Buffer, m: GenericMessage)
    requires MatchIndexes(f, OfKind(front, f.kind)) == Ranks(front, MatchIndexes(f, front), f.kind)
    ensures MatchIndexes(f, OfKind(front + [m], f.kind))
            == Ranks(front + [m], MatchIndexes(f, front + [m]), f.kind)
  {
    var ms, n, idx := front + [m], |front|, MatchIndexes(f, front);
    assert ms[..n] == front;
    Snoc(f, front, m);
    OfKindSnoc(front, m, f.kind);
    if f.IsMatch(m) {
      Snoc(f, OfKind(front, f.kind), m);
      assert (idx + [n])[..|idx|] == idx;
    } else {
      RanksBelow(ms, idx, n, f.kind);
      if m.kind == f.kind {
        Snoc(f, OfKind(front, f.kind), m);
      }
    }
  }

  // ----- when a drain does not notice the other kind -----

  /** Between every match and the position the drain takes for it, both included, there are only messages of its
      kind. */
  ghost predicate KeepsToItsKind(f: GenericFilter, ms: Buffer) {
    forall j :: 0 <= j < |MatchIndexes(f, ms)| ==> KeptFrom(f, ms, j)
  }

  lemma {:induction false} OneKeeps(f: GenericFilter, ms: Buffer)
    requires |MatchIndexes(f, ms)| <= 1
    ensures KeepsToItsKind(f, ms)
  {
    if MatchIndexes(f, ms) != [] {
      assert MatchIndexes(f, ms)[0] in MatchIndexes(f, ms);
    }
  }

  ghost predicate Distinct(ms: Buffer) {
    forall i, j :: 0 <= i < j < |ms| ==> ms[i] != ms[j]
  }

  /** For one match: the drain takes for it, among the messages of its kind, the one it takes among all. */
  predicate SamePlace(ms: Buffer, i: nat, j: nat, kind: MessageKind)
    requires i + j < |ms|
  {
    Rank(ms, i, kind) + j == Rank(ms, i + j, kind) && ms[i + j].kind == kind
  }

  lemma {:induction false} SamePlaceIff(ms: Buffer, i: nat, j: nat, kind: MessageKind)
    requires i + j < |ms|
    ensures SamePlace(ms, i, j, kind) <==> AllOfKind(ms, i, i + j + 1, kind)
  {
    RankGap(ms, i, i + j, kind);
  }

  lemma {:induction false} KeepsMeans(f: GenericFilter, ms: Buffer)
    requires DrainAsWritten(f, ms).Some?
    ensures var idx := MatchIndexes(f, ms);
      && (forall j :: 0 <= j < |idx| ==> idx[j] + j < |ms|)
      && (KeepsToItsKind(f, ms) <==> forall j :: 0 <= j < |idx| ==> SamePlace(ms, idx[j], j, f.kind))
  {
    var idx := MatchIndexes(f, ms);
    forall j | 0 <= j < |idx| ensures idx[j] + j < |ms| {
      InBounds(f, ms, j);
    }
    forall j | 0 <= j < |idx| ensures SamePlace(ms, idx[j], j, f.kind) <==> KeptFrom(f, ms, j) {
      SamePlaceIff(ms, idx[j], j, f.kind);
    }
  }

  /** Between the `j`-th match and its position. */
  predicate KeptFrom(f: GenericFilter, ms: Buffer, j: nat)
    requires j < |MatchIndexes(f, ms)|
  {
    forall k :: MatchIndexes(f, ms)[j] <= k <= MatchIndexes(f, ms)[j] + j && k < |ms| ==> ms[k].kind == f.kind
  }

  lemma {:induction false} InBounds(f: GenericFilter, ms: Buffer, j: nat)
    requires DrainAsWritten(f, ms).Some? && j < |MatchIndexes(f, ms)|
    ensures MatchIndexes(f, ms)[j] + j < |ms|
  {
    DrainAt(f, ms);
    RanksAt(ms, Positions(MatchIndexes(f, ms)), f.kind, j);
  }

  /** A drain that keeps to its kind does among the messages of its kind what it does among all. */
  lemma {:induction false} KeptDrain(f: GenericFilter, ms: Buffer)
    requires DrainAsWritten(f, ms).Some? && KeepsToItsKind(f, ms)
    ensures var (taken, rest) := DrainAsWritten(f, ms).value;
      && DrainAsWritten(f, OfKind(ms, f.kind)) == Some((taken, OfKind(rest, f.kind)))
      && !HitsOtherKind(ms, Positions(MatchIndexes(f, ms)), f.kind)
  {
    var p := Positions(MatchIndexes(f, ms));
    DrainAt(f, ms);
    KeptPositions(f, ms);
    RemovingRanks(ms, p, f.kind);
    MatchRanks(f, ms);
    DrainAt(f, OfKind(ms, f.kind));
  }

  lemma {:induction false} KeptPositions(f: GenericFilter, ms: Buffer)
    requires DrainAsWritten(f, ms).Some? && KeepsToItsKind(f, ms)
    ensures var idx := MatchIndexes(f, ms);
      && Within(Positions(idx), |ms|) && !HitsOtherKind(ms, Positions(idx), f.kind)
      && Positions(Ranks(ms, idx, f.kind)) == Ranks(ms, Positions(idx), f.kind)
  {
    var idx := MatchIndexes(f, ms);
    var p, r := Positions(idx), Ranks(ms, idx, f.kind);
    DrainAt(f, ms);
    forall j | 0 <= j < |p| ensures p[j] < |ms| && ms[p[j]].kind == f.kind {
      KeptPosition(f, ms, j);
    }
    forall j | 0 <= j < |p| ensures Positions(r)[j] == Ranks(ms, p, f.kind)[j] {
      KeptPosition(f, ms, j);
    }
    SameRanks(ms, p, f.kind, Positions(r));
  }

  lemma {:induction false} KeptPosition(f: GenericFilter, ms: Buffer, j: nat)
    requires DrainAsWritten(f, ms).Some? && KeepsToItsKind(f, ms) && j < |MatchIndexes(f, ms)|
    ensures var idx := MatchIndexes(f, ms);
            var p := Positions(idx);
      && Within(p, |ms|) && p[j] == idx[j] + j < |ms| && ms[p[j]].kind == f.kind
      && Ranks(ms, idx, f.kind)[j] + j == Ranks(ms, p, f.kind)[j]
  {
    var idx := MatchIndexes(f, ms);
    DrainAt(f, ms);
    KeepsMeans(f, ms);
    RanksAt(ms, idx, f.kind, j);
    RanksAt(ms, Positions(idx), f.kind, j);
    assert SamePlace(ms, idx[j], j, f.kind);
  }

  lemma {:induction false} SameRanks(ms: Buffer, p: seq<nat>, kind: MessageKind, r: seq<nat>)
    requires Within(p, |ms|) && |r| == |p| && forall j :: 0 <= j < |p| ==> r[j] == Ranks(ms, p, kind)[j]
    ensures r == Ranks(ms, p, kind)
  {
  }

  lemma {:induction false} DrainAt(f: GenericFilter, ms: Buffer)
    ensures var p := Positions(MatchIndexes(f, ms));
      && (DrainAsWritten(f, ms).Some? <==> Within(p, |ms|))
      && (Within(p, |ms|) ==> DrainAsWritten(f, ms) == Some((At(ms, p), Without(ms, p))))
  {
    MatchIndexesIncrease(f, ms);
    RemovalLaw(ms, MatchIndexes(f, ms));
  }

  /** A drain that takes the same messages among its kind as among all keeps to its kind. */
  lemma {:induction false} SameTaken(f: GenericFilter, ms: Buffer)
    requires DrainAsWritten(f, ms).Some? && Distinct(ms)
    requires var own := DrainAsWritten(f, OfKind(ms, f.kind));
             own.Some? && own.value.0 == DrainAsWritten(f, ms).value.0
    ensures KeepsToItsKind(f, ms)
  {
    forall j | 0 <= j < |MatchIndexes(f, ms)| ensures KeptFrom(f, ms, j) {
      InBounds(f, ms, j);
      SameTakenAt(f, ms, j);
      SamePlaceIff(ms, MatchIndexes(f, ms)[j], j, f.kind);
    }
  }

  lemma {:induction false} SameTakenAt(f: GenericFilter, ms: Buffer, j: nat)
    requires DrainAsWritten(f, ms).Some? && Distinct(ms) && j < |MatchIndexes(f, ms)|
    requires var own := DrainAsWritten(f, OfKind(ms, f.kind));
             own.Some? && own.value.0 == DrainAsWritten(f, ms).value.0
    ensures var i := MatchIndexes(f, ms)[j]; i + j < |ms| && SamePlace(ms, i, j, f.kind)
  {
    var own, idx := OfKind(ms, f.kind), MatchIndexes(f, ms);
    MatchRanks(f, ms);
    TakenAt(f, ms, j);
    TakenAt(f, own, j);
    RanksAt(ms, idx, f.kind, j);
    SameMessage(ms, idx[j] + j, Rank(ms, idx[j], f.kind) + j, f.kind);
  }

  /** What the drain takes for the `j`-th match. */
  lemma {:induction false} TakenAt(f: GenericFilter, ms: Buffer, j: nat)
    requires DrainAsWritten(f, ms).Some? && j < |MatchIndexes(f, ms)|
    ensures MatchIndexes(f, ms)[j] + j < |ms| && j < |DrainAsWritten(f, ms).value.0|
    ensures DrainAsWritten(f, ms).value.0[j] == ms[MatchIndexes(f, ms)[j] + j]
  {
    DrainAt(f, ms);
    AtIndex(ms, Positions(MatchIndexes(f, ms)), j);
  }

  /** A message found at some position among its kind has that rank. */
  lemma {:induction false} SameMessage(ms: Buffer, i: nat, r: nat, kind: MessageKind)
    requires Distinct(ms) && i < |ms| && r < |OfKind(ms, kind)| && OfKind(ms, kind)[r] == ms[i]
    ensures ms[i].kind == kind && Rank(ms, i, kind) == r
  {
    var h := PositionOfRank(ms, r, kind);
    assert h == i;
  }

  /** Exact condition for one drain as written that does not fail: it does among the messages of its kind just what
      it does among all messages if and only if it keeps to its kind. */
  lemma {:induction false} DrainKeepsKindIff(f: GenericFilter, ms: Buffer)
    requires DrainAsWritten(f, ms).Some? && Distinct(ms)
    ensures var (taken, rest) := DrainAsWritten(f, ms).value;
      DrainAsWritten(f, OfKind(ms, f.kind)) == Some((taken, OfKind(rest, f.kind))) <==> KeepsToItsKind(f, ms)
  {
    if KeepsToItsKind(f, ms) {
      KeptDrain(f, ms);
    } else if DrainAsWritten(f, OfKind(ms, f.kind)).Some?
              && DrainAsWritten(f, OfKind(ms, f.kind)).value.0 == DrainAsWritten(f, ms).value.0 {
      SameTaken(f, ms);
    }
  }

  lemma {:induction false} OfKindLength(ms: Buffer, kind: MessageKind)
    ensures |OfKind(ms, kind)| <= |ms|
    ensures |OfKind(ms, kind)| == |ms| <==> forall m :: m in ms ==> m.kind == kind
    ensures |OfKind(ms, kind)| == |ms| ==> OfKind(ms, kind) == ms
  {
    if ms != [] {
      var front, m := ms[..|ms| - 1], ms[|ms| - 1];
      assert ms == front + [m];
      OfKindLength(front, kind);
    }
  }

  /** The other kind's buffer stays as it is exactly when none of it is taken. */
  lemma {:induction false} OtherKindKeptIff(f: GenericFilter, ms: Buffer, kind: MessageKind)
    requires DrainAsWritten(f, ms).Some? && kind != f.kind
    ensures var (taken, rest) := DrainAsWritten(f, ms).value;
      && (OfKind(rest, kind) == OfKind(ms, kind) <==> !HitsOtherKind(ms, Positions(MatchIndexes(f, ms)), f.kind))
      && (OfKind(taken, kind) == [] <==> !HitsOtherKind(ms, Positions(MatchIndexes(f, ms)), f.kind))
  {
    var p := Positions(MatchIndexes(f, ms));
    DrainAt(f, ms);
    OtherKindTaken(ms, p, f.kind);
    OfKindEmpty(At(ms, p), kind);
    WithoutOfKind(ms, p, kind);
  }

  lemma {:induction false} OfKindEmpty(ms: Buffer, kind: MessageKind)
    ensures OfKind(ms, kind) == [] <==> forall m :: m in ms ==> m.kind != kind
  {
    if ms != [] {
      var front, m := ms[..|ms| - 1], ms[|ms| - 1];
      assert ms == front + [m];
      OfKindEmpty(front, kind);
    }
  }

  /** Removal takes as many messages of a kind out of the buffer as it takes in all, and none if it takes none. */
  lemma {:induction false} WithoutOfKind(ms: Buffer, p: seq<nat>, kind: MessageKind)
    requires Within(p, |ms|)
    ensures |OfKind(Without(ms, p), kind)| + |OfKind(At(ms, p), kind)| == |OfKind(ms, kind)|
    ensures OfKind(At(ms, p), kind) == [] ==> OfKind(Without(ms, p), kind) == OfKind(ms, kind)
    decreases |p|
  {
    if p != [] {
      var last := p[|p| - 1];
      WithoutOfKind(ms[..last], p[..|p| - 1], kind);
      OfKindSnoc(At(ms[..last], p[..|p| - 1]), ms[last], kind);
      OfKindAppend(Without(ms[..last], p[..|p| - 1]), ms[last + 1..], kind);
      assert ms == ms[..last + 1] + ms[last + 1..];
      OfKindAppend(ms[..last + 1], ms[last + 1..], kind);
      RankNext(ms, last, kind);
    }
  }
}
