/** Iteration of a `BTreeMap` or of a database table: keys in increasing order. */
module SortedKeys {
  lemma {:induction false} LeastBelow(s: set<nat>, y: nat)
    requires y in s
    ensures exists m :: m in s && forall x :: x in s ==> m <= x
    decreases y
  {
    if z :| z in s && z < y {
      LeastBelow(s, z);
    } else {
      assert y in s && forall x :: x in s ==> y <= x;
    }
  }

  function Least(s: set<nat>): (m: nat)
    requires s != {}
    ensures m in s && forall x :: x in s ==> m <= x
  {
    assert exists m :: m in s && forall x :: x in s ==> m <= x by {
      var y :| y in s;
      LeastBelow(s, y);
    }
    var m :| m in s && forall x :: x in s ==> m <= x; m
  }

  function Sorted(s: set<nat>): (r: seq<nat>)
    ensures forall x :: x in r <==> x in s
    ensures forall i, j :: 0 <= i < j < |r| ==> r[i] < r[j]
    decreases |s|
  {
    if s == {} then []
    else
      var m := Least(s);
      [m] + Sorted(s - {m})
  }
}

/** Stored readings: one log per sensor, keyed by time (src/db.rs). */
module SensorLogs {
  import opened Common

  datatype SensorValues = SensorValues(timestamp: u32, temperature: i16, humidity: Humidity, pressure: u32)

  datatype SensorState = Connected(values: SensorValues) | Unconnected

  /** A key and its `RawSensorValues`. */
  datatype Entry = Entry(time: u32, temperature: i16, humidity: Humidity, pressure: u32)

  type Log = seq<Entry>

  function ToEntry(v: SensorValues): Entry {
    Entry(v.timestamp, v.temperature, v.humidity, v.pressure)
  }

  predicate Increasing(log: Log) {
    forall i, j :: 0 <= i < j < |log| ==> log[i].time < log[j].time
  }

  /** `append` succeeds only with a key greater than every stored key. */
  function Append(log: Log, e: Entry): Option<Log> {
    if log == [] || log[|log| - 1].time < e.time then Some(log + [e]) else None
  }

  lemma {:induction false} AppendLaw(log: Log, e: Entry)
    requires Increasing(log)
    ensures Append(log, e).Some? <==> forall x :: x in log ==> x.time < e.time
    ensures Append(log, e).Some? ==> Increasing(Append(log, e).value)
  {
    if Append(log, e).Some? {
      forall i | 0 <= i < |log| ensures log[i].time < e.time {
        assert i < |log| - 1 ==> log[i].time < log[|log| - 1].time;
      }
    } else {
      assert log[|log| - 1] in log;
    }
  }

  // ----- big-endian keys -----

  function KeyBytes(t: u32): (b: seq<nat>)
    ensures |b| == 4
  {
    [t / 0x100 / 0x100 / 0x100, t / 0x100 / 0x100 % 0x100, t / 0x100 % 0x100, t % 0x100]
  }

  /** The order of the database: byte by byte. */
  predicate LexLess(a: seq<nat>, b: seq<nat>)
    requires |a| == |b|
  {
    a != [] && (a[0] < b[0] || (a[0] == b[0] && LexLess(a[1..], b[1..])))
  }

  function FromBytes(b: seq<nat>): nat
    requires |b| == 4
  {
    b[0] * 0x100_0000 + b[1] * 0x1_0000 + b[2] * 0x100 + b[3]
  }

  lemma {:induction false} KeyDigits(t: u32)
    ensures FromBytes(KeyBytes(t)) == t && forall i :: 0 <= i < 4 ==> KeyBytes(t)[i] < 0x100
  {
    var a := t / 0x100;
    var b := a / 0x100;
    assert t == a * 0x100 + t % 0x100;
    assert a == b * 0x100 + a % 0x100;
    assert b == b / 0x100 * 0x100 + b % 0x100;
  }

  lemma {:induction false} LexLessFour(x: seq<nat>, y: seq<nat>)
    requires |x| == |y| == 4
    requires forall i :: 0 <= i < 4 ==> x[i] < 0x100 && y[i] < 0x100
    ensures LexLess(x, y) <==> FromBytes(x) < FromBytes(y)
  {
    var x1, y1 := x[1..], y[1..];
    var x2, y2 := x1[1..], y1[1..];
    assert x2 == [x[2], x[3]] && y2 == [y[2], y[3]];
    assert x2[1..] == [x[3]] && y2[1..] == [y[3]];
    assert LexLess([x[3]], [y[3]]) <==> x[3] < y[3];
    assert LexLess(x2, y2) <==> x[2] * 0x100 + x[3] < y[2] * 0x100 + y[3];
    assert x1[0] == x[1] && y1[0] == y[1];
    assert LexLess(x1, y1) <==>
      x[1] * 0x1_0000 + x[2] * 0x100 + x[3] < y[1] * 0x1_0000 + y[2] * 0x100 + y[3];
  }

  /** The database's byte order on keys is the order of the timestamps. */
  lemma {:induction false} KeyOrderIsNumeric(a: u32, b: u32)
    ensures LexLess(KeyBytes(a), KeyBytes(b)) <==> a < b
  {
    KeyDigits(a);
    KeyDigits(b);
    LexLessFour(KeyBytes(a), KeyBytes(b));
  }

  // ----- range lookups -----

  /** The entries with `lo <= time < hi`, in order. */
  function InRange(log: Log, lo: u32, hi: u32): Log {
    if log == [] then []
    else (if lo <= log[0].time < hi then [log[0]] else []) + InRange(log[1..], lo, hi)
  }

  /** The same range by comparing keys as the database does. */
  function InKeyRange(log: Log, lo: u32, hi: u32): Log {
    if log == [] then []
    else
      (if !LexLess(KeyBytes(log[0].time), KeyBytes(lo)) && LexLess(KeyBytes(log[0].time), KeyBytes(hi))
       then [log[0]] else [])
      + InKeyRange(log[1..], lo, hi)
  }

  lemma {:induction false} KeyRangeIsNumeric(log: Log, lo: u32, hi: u32)
    ensures InKeyRange(log, lo, hi) == InRange(log, lo, hi)
  {
    if log != [] {
      KeyOrderIsNumeric(log[0].time, lo);
      KeyOrderIsNumeric(log[0].time, hi);
      KeyRangeIsNumeric(log[1..], lo, hi);
    }
  }

  lemma {:induction false} InRangeAppend(a: Log, b: Log, lo: u32, hi: u32)
    ensures InRange(a + b, lo, hi) == InRange(a, lo, hi) + InRange(b, lo, hi)
  {
    if a == [] {
      assert a + b == b;
    } else {
      assert (a + b)[1..] == a[1..] + b;
      InRangeAppend(a[1..], b, lo, hi);
    }
  }

  lemma {:induction false} InRangeMembers(log: Log, lo: u32, hi: u32)
    ensures forall e :: e in InRange(log, lo, hi) <==> e in log && lo <= e.time < hi
  {
    if log != [] {
      InRangeMembers(log[1..], lo, hi);
      assert log == [log[0]] + log[1..];
    }
  }

  lemma {:induction false} TailIncreases(log: Log)
    requires log != [] && Increasing(log)
    ensures Increasing(log[1..]) && forall e :: e in log[1..] ==> log[0].time < e.time
  {
    assert forall i :: 0 <= i < |log| - 1 ==> log[1..][i] == log[i + 1];
  }

  lemma {:induction false} PutFirst(e: Entry, rest: Log)
    requires Increasing(rest) && forall x :: x in rest ==> e.time < x.time
    ensures Increasing([e] + rest)
  {
    forall i, j | 0 <= i < j < |[e] + rest| ensures ([e] + rest)[i].time < ([e] + rest)[j].time {
      assert ([e] + rest)[j] == rest[j - 1] && rest[j - 1] in rest;
    }
  }

  lemma {:induction false} InRangeIncreases(log: Log, lo: u32, hi: u32)
    requires Increasing(log)
    ensures Increasing(InRange(log, lo, hi))
  {
    if log != [] {
      var rest := InRange(log[1..], lo, hi);
      TailIncreases(log);
      InRangeIncreases(log[1..], lo, hi);
      InRangeMembers(log[1..], lo, hi);
      if lo <= log[0].time < hi {
        PutFirst(log[0], rest);
      } else {
        assert InRange(log, lo, hi) == rest;
      }
    }
  }

  lemma {:induction false} InRangeAll(log: Log, lo: u32, hi: u32)
    ensures (forall e :: e in log ==> lo <= e.time < hi) ==> InRange(log, lo, hi) == log
    ensures (forall e :: e in log ==> !(lo <= e.time < hi)) ==> InRange(log, lo, hi) == []
  {
    if log != [] {
      assert log == [log[0]] + log[1..];
      InRangeAll(log[1..], lo, hi);
    }
  }

  lemma {:induction false} InRangeNested(log: Log, lo: u32, mid: u32, hi: u32)
    requires lo <= mid
    ensures InRange(InRange(log, lo, hi), mid, hi) == InRange(log, mid, hi)
  {
    if log != [] {
      InRangeNested(log[1..], lo, mid, hi);
      var head := if lo <= log[0].time < hi then [log[0]] else [];
      InRangeAppend(head, InRange(log[1..], lo, hi), mid, hi);
      assert InRange(head, mid, hi) == if mid <= log[0].time < hi then [log[0]] else [];
    }
  }

  /** Adjacent ranges concatenate to the joined range. */
  lemma {:induction false} AdjacentRanges(log: Log, lo: u32, mid: u32, hi: u32)
    requires Increasing(log) && lo <= mid <= hi
    ensures InRange(log, lo, mid) + InRange(log, mid, hi) == InRange(log, lo, hi)
  {
    if log != [] {
      TailIncreases(log);
      AdjacentRanges(log[1..], lo, mid, hi);
      if log[0].time >= mid {
        assert InRange(log[1..], lo, mid) == [] by {
          TailIncreases(log);
          InRangeAll(log[1..], lo, mid);
        }
      }
    }
  }

  // ----- the four columns -----

  datatype SensorDataResponse = SensorDataResponse(
    time: seq<u32>, temperature: seq<i16>, pressure: seq<u32>, humidity: seq<Humidity>)

  function Columns(log: Log): SensorDataResponse {
    SensorDataResponse(
      seq(|log|, i requires 0 <= i < |log| => log[i].time),
      seq(|log|, i requires 0 <= i < |log| => log[i].temperature),
      seq(|log|, i requires 0 <= i < |log| => log[i].pressure),
      seq(|log|, i requires 0 <= i < |log| => log[i].humidity))
  }

  predicate Aligned(r: SensorDataResponse) {
    |r.time| == |r.temperature| == |r.pressure| == |r.humidity|
  }

  /** Reading the columns row by row. */
  function Rows(r: SensorDataResponse): Log
    requires Aligned(r)
  {
    seq(|r.time|, i requires 0 <= i < |r.time| => Entry(r.time[i], r.temperature[i], r.humidity[i], r.pressure[i]))
  }

  /** The columns lose nothing: they are aligned and their rows are the entries. */
  lemma {:induction false} RowsOfColumns(log: Log)
    ensures Aligned(Columns(log)) && Rows(Columns(log)) == log
  {
  }

  // ----- by fields -----

  /** The log holds what it held, and then the reading. */
  predicate StoresReading(was: Log, now: Log, v: SensorValues) {
    && |now| == |was| + 1 && now[..|was|] == was
    && now[|was|].time == v.timestamp && now[|was|].temperature == v.temperature
    && now[|was|].humidity == v.humidity && now[|was|].pressure == v.pressure
  }

  lemma {:induction false} EntryStores(log: Log, v: SensorValues)
    ensures StoresReading(log, log + [ToEntry(v)], v)
  {
  }

  /** The response holds, row by row, the entries with `lo <= time < hi`, once each and in order. */
  ghost predicate Answers(r: SensorDataResponse, log: Log, lo: u32, hi: u32) {
    exists p: seq<nat> :: AnswersAt(r, log, lo, hi, p)
  }

  ghost predicate AnswersAt(r: SensorDataResponse, log: Log, lo: u32, hi: u32, p: seq<nat>) {
    && |r.time| == |r.temperature| == |r.pressure| == |r.humidity| == |p|
    && (forall i, j :: 0 <= i < j < |p| ==> p[i] < p[j])
    && (forall i: nat :: i in p <==> i < |log| && lo <= log[i].time < hi)
    && forall j :: 0 <= j < |p| ==> p[j] < |log| && IsRow(r, j, log[p[j]])
  }

  predicate IsRow(r: SensorDataResponse, j: nat, e: Entry) {
    && j < |r.time| && j < |r.temperature| && j < |r.humidity| && j < |r.pressure|
    && r.time[j] == e.time && r.temperature[j] == e.temperature
    && r.humidity[j] == e.humidity && r.pressure[j] == e.pressure
  }

  lemma {:induction false} RangePositions(log: Log, lo: u32, hi: u32) returns (p: seq<nat>)
    ensures forall i, j :: 0 <= i < j < |p| ==> p[i] < p[j]
    ensures forall i: nat :: i in p <==> i < |log| && lo <= log[i].time < hi
    ensures |InRange(log, lo, hi)| == |p|
    ensures forall j :: 0 <= j < |p| ==> p[j] < |log| && InRange(log, lo, hi)[j] == log[p[j]]
  {
    if log == [] {
      p := [];
    } else {
      var n := |log| - 1;
      p := RangePositions(log[..n], lo, hi);
      assert log[..n + 1] == log;
      InRangeSnoc(log, n, lo, hi);
      assert forall i :: i in p ==> i < n;
      assert forall j :: 0 <= j < |p| ==> p[j] in p;
      if lo <= log[n].time < hi {
        p := p + [n];
      }
    }
  }

  lemma {:induction false} ColumnsAnswer(log: Log, lo: u32, hi: u32)
    ensures Answers(Columns(InRange(log, lo, hi)), log, lo, hi)
  {
    var p := RangePositions(log, lo, hi);
    assert AnswersAt(Columns(InRange(log, lo, hi)), log, lo, hi, p);
  }

  /** A reading just stored is the last row of any answer about a range it lies in. */
  lemma {:induction false} StoredIsAnswered(was: Log, log: Log, v: SensorValues, r: SensorDataResponse, lo: u32,
      hi: u32)
    requires StoresReading(was, log, v) && lo <= v.timestamp < hi && Answers(r, log, lo, hi)
    ensures |r.time| == |r.temperature| == |r.humidity| == |r.pressure| > 0
    ensures var n := |r.time| - 1;
      && r.time[n] == v.timestamp && r.temperature[n] == v.temperature
      && r.humidity[n] == v.humidity && r.pressure[n] == v.pressure
  {
    var p :| AnswersAt(r, log, lo, hi, p);
    assert |was| in p;
    var j :| 0 <= j < |p| && p[j] == |was|;
    LastIsLargest(p, j);
    assert IsRow(r, |p| - 1, log[p[|p| - 1]]);
  }

  lemma {:induction false} LastIsLargest(p: seq<nat>, j: nat)
    requires j < |p| && forall i, k :: 0 <= i < k < |p| ==> p[i] < p[k]
    ensures p[j] <= p[|p| - 1]
  {
  }

  function Take(log: Log, limit: Option<nat>): Log {
    if limit.Some? && limit.value < |log| then log[..limit.value] else log
  }

  lemma {:induction false} ColumnsSnoc(log: Log, e: Entry)
    ensures var c := Columns(log);
            Columns(log + [e]) == SensorDataResponse(
              c.time + [e.time], c.temperature + [e.temperature], c.pressure + [e.pressure], c.humidity + [e.humidity])
  {
  }

  lemma {:induction false} InRangeSnoc(log: Log, i: nat, lo: u32, hi: u32)
    requires i < |log|
    ensures InRange(log[..i + 1], lo, hi)
            == InRange(log[..i], lo, hi) + (if lo <= log[i].time < hi then [log[i]] else [])
  {
    assert log[..i + 1] == log[..i] + [log[i]];
    InRangeAppend(log[..i], [log[i]], lo, hi);
  }

  /** `get_log`, for a sensor whose log is open. */
  method ReadRange(log: Log, lo: u32, hi: u32, limit: Option<nat>) returns (data: SensorDataResponse)
    requires limit.Some? ==> limit.value > 0
    ensures data == Columns(Take(InRange(log, lo, hi), limit))
    ensures Aligned(data)
  {
    data := SensorDataResponse([], [], [], []);
    assert data == Columns([]);
    ghost var out: Log := [];
    for i := 0 to |log|
      invariant data == Columns(out) && out == InRange(log[..i], lo, hi)
      invariant limit.Some? ==> |out| < limit.value
    {
      InRangeSnoc(log, i, lo, hi);
      var e := log[i];
      if lo <= e.time < hi {
        ColumnsSnoc(out, e);
        data := SensorDataResponse(
          data.time + [e.time], data.temperature + [e.temperature],
          data.pressure + [e.pressure], data.humidity + [e.humidity]);
        out := out + [e];
        if limit.Some? && |data.time| == limit.value {
          TakeStops(log, i + 1, lo, hi, limit);
          return;
        }
      } else {
        assert out + [] == out;
      }
    }
    assert log[..|log|] == log;
  }

  lemma {:induction false} TakeStops(log: Log, i: nat, lo: u32, hi: u32, limit: Option<nat>)
    requires i <= |log| && limit.Some? && |InRange(log[..i], lo, hi)| == limit.value
    ensures Take(InRange(log, lo, hi), limit) == InRange(log[..i], lo, hi)
  {
    assert log == log[..i] + log[i..];
    InRangeAppend(log[..i], log[i..], lo, hi);
  }
}
