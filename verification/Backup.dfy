/** Reading logs back: `get_log`, `get_sensor_data` and the paginated `backup` (src/db.rs, src/rpc.rs). A read
    transaction is a snapshot, so these methods take the database as a value. */
module Backups {
  import opened Common
  import opened SensorLogs
  import opened Store

  const CHUNK_SIZE: nat := 8192

  /** `get_log`: nothing for a sensor without an open log. */
  method GetLog(db: Shared, id: Id, lo: u32, hi: u32, limit: Option<nat>) returns (r: Option<SensorDataResponse>)
    requires db.known <= db.logs.Keys && (limit.Some? ==> limit.value > 0)
    ensures r.Some? <==> id in db.known
    ensures r.Some? ==> r.value == Columns(Take(InRange(db.logs[id], lo, hi), limit))
  {
    if id !in db.known {
      return None;
    }
    var data := ReadRange(db.logs[id], lo, hi, limit);
    r := Some(data);
  }

  datatype DataReply = Data(response: SensorDataResponse) | InvalidRange | NotFound

  /** `get_sensor_data`. A well-formed request for a known sensor gets exactly its readings from `start` up to but
      not including `end`, whatever the database's key order. */
  method GetSensorData(db: Shared, id: Id, start: u32, end: u32) returns (r: DataReply)
    requires db.known <= db.logs.Keys
    ensures r.InvalidRange? <==> start > end
    ensures r.NotFound? <==> start <= end && id !in db.known
    ensures r.Data? ==> Aligned(r.response) && Rows(r.response) == InKeyRange(db.logs[id], start, end)
    ensures r.Data? ==> Answers(r.response, db.logs[id], start, end)
  {
    if start > end {
      return InvalidRange;
    }
    var log := GetLog(db, id, start, end, None);
    if log.None? {
      return NotFound;
    }
    KeyRangeIsNumeric(db.logs[id], start, end);
    ColumnsAnswer(db.logs[id], start, end);
    RowsOfColumns(InRange(db.logs[id], start, end));
    r := Data(log.value);
  }

  // ----- pages -----

  function Pages(es: Log): (r: seq<Log>)
    decreases |es|
  {
    if es == [] then []
    else if |es| <= CHUNK_SIZE then [es]
    else [es[..CHUNK_SIZE]] + Pages(es[CHUNK_SIZE..])
  }

  function Concat(pages: seq<Log>): Log {
    if pages == [] then [] else pages[0] + Concat(pages[1..])
  }

  /** The pages put together are the log; there are ceil(n / 8192) of them, none empty, none too long, and only
      the last one short. */
  lemma {:induction false} PagesLaw(es: Log)
    ensures Concat(Pages(es)) == es
    ensures |Pages(es)| == (|es| + 8191) / 8192
    ensures forall i :: 0 <= i < |Pages(es)| ==> 0 < |Pages(es)[i]| <= 8192
    ensures forall i :: 0 <= i < |Pages(es)| - 1 ==> |Pages(es)[i]| == 8192
    decreases |es|
  {
    if es == [] {
    } else if |es| <= CHUNK_SIZE {
      assert Concat([es]) == es + Concat([es][1..]);
    } else {
      PagesLaw(es[CHUNK_SIZE..]);
      assert Pages(es)[1..] == Pages(es[CHUNK_SIZE..]);
    }
  }

  // ----- the backup -----

  datatype Chunk = Chunk(id: Id, entries: Log)

  datatype BackupResponse = BackupResponse(id: Id, chunk: SensorDataResponse)

  /** Everything of a snapshot log that the backup's exclusive range end lets through. */
  function Wanted(db: Shared, id: Id): Log
    requires db.known <= db.logs.Keys
  {
    if id in db.known then InRange(db.logs[id], 0, U32_MAX) else []
  }

  function ChunksOf(id: Id, es: Log): (r: seq<Chunk>)
    ensures |r| == |Pages(es)|
    ensures forall i :: 0 <= i < |r| ==> r[i] == Chunk(id, Pages(es)[i])
  {
    var p := Pages(es);
    seq(|p|, i requires 0 <= i < |p| => Chunk(id, p[i]))
  }

  function ChunksOfAll(db: Shared, ids: seq<Id>): seq<Chunk>
    requires db.known <= db.logs.Keys
  {
    if ids == [] then [] else ChunksOf(ids[0], Wanted(db, ids[0])) + ChunksOfAll(db, ids[1..])
  }

  /** An order in which the id table can be read. Its keys are numbers in the byte order of the machine, so it need
      not be the order of the identifiers. */
  ghost predicate TableOrder(order: seq<Id>, ids: set<Id>) {
    && (forall id :: id in order <==> id in ids)
    && forall i, j :: 0 <= i < j < |order| ==> order[i] != order[j]
  }

  function ToResponses(chunks: seq<Chunk>): (r: seq<BackupResponse>)
    ensures |r| == |chunks|
    ensures forall i :: 0 <= i < |r| ==> r[i] == BackupResponse(chunks[i].id, Columns(chunks[i].entries))
  {
    seq(|chunks|, i requires 0 <= i < |chunks| => BackupResponse(chunks[i].id, Columns(chunks[i].entries)))
  }

  /** What one sensor's chunks hold, put together. */
  function RowsFor(chunks: seq<Chunk>, id: Id): Log {
    if chunks == [] then []
    else (if chunks[0].id == id then chunks[0].entries else []) + RowsFor(chunks[1..], id)
  }

  function CountFor(chunks: seq<Chunk>, id: Id): nat {
    if chunks == [] then 0
    else (if chunks[0].id == id then 1 else 0) + CountFor(chunks[1..], id)
  }

  lemma {:induction false} UpToEntry(all: Log, k: nat, e: Entry)
    requires Increasing(all) && 0 < k <= |all| && e in all[..k]
    ensures e.time <= all[k - 1].time
  {
    var i :| 0 <= i < k && all[i] == e;
    assert i < k - 1 ==> all[i].time < all[k - 1].time;
  }

  lemma {:induction false} BeyondEntry(all: Log, k: nat, e: Entry)
    requires Increasing(all) && 0 < k <= |all| && e in all[k..]
    ensures e in all && all[k - 1].time < e.time
  {
    var i :| k <= i < |all| && all[i] == e;
  }

  /** In increasing order, what comes after the k-th entry's time is what comes after the k-th entry. */
  lemma {:induction false} AfterEntry(all: Log, k: nat, from: u32)
    requires Increasing(all) && 0 < k <= |all| && from == all[k - 1].time + 1
    requires forall e :: e in all ==> e.time < U32_MAX
    ensures InRange(all, from, U32_MAX) == all[k..]
  {
    assert InRange(all[..k], from, U32_MAX) == [] by {
      forall e | e in all[..k] ensures !(from <= e.time < U32_MAX) {
        UpToEntry(all, k, e);
      }
      InRangeAll(all[..k], from, U32_MAX);
    }
    assert InRange(all[k..], from, U32_MAX) == all[k..] by {
      forall e | e in all[k..] ensures from <= e.time < U32_MAX {
        BeyondEntry(all, k, e);
      }
      InRangeAll(all[k..], from, U32_MAX);
    }
    assert all == all[..k] + all[k..];
    InRangeAppend(all[..k], all[k..], from, U32_MAX);
  }

  lemma {:induction false} EntryBounds(log: Log, start: u32)
    ensures forall e :: e in InRange(log, start, U32_MAX) ==> start <= e.time < U32_MAX
  {
    InRangeMembers(log, start, U32_MAX);
  }

  lemma {:induction false} NextStart(log: Log, start: u32, k: nat)
    requires 0 < k <= |InRange(log, start, U32_MAX)|
    ensures start <= InRange(log, start, U32_MAX)[k - 1].time < U32_MAX
  {
    EntryBounds(log, start);
    assert InRange(log, start, U32_MAX)[k - 1] in InRange(log, start, U32_MAX);
  }

  /** Reading on after the k-th entry of a range yields the rest. */
  lemma {:induction false} ReadOn(log: Log, start: u32, all: Log, k: nat, from: u32)
    requires Increasing(log) && all == InRange(log, start, U32_MAX)
    requires 0 < k <= |all| && from == all[k - 1].time + 1
    ensures InRange(log, from, U32_MAX) == all[k..]
  {
    assert InRange(all, from, U32_MAX) == all[k..] by {
      EntryBounds(log, start);
      InRangeIncreases(log, start, U32_MAX);
      AfterEntry(all, k, from);
    }
    NextStart(log, start, k);
    InRangeNested(log, start, from, U32_MAX);
  }

  lemma {:induction false} FirstPage(id: Id, es: Log, page: Log)
    requires page == Take(es, Some(CHUNK_SIZE)) && page != []
    ensures ChunksOf(id, es) == [Chunk(id, page)] + ChunksOf(id, es[|page|..])
  {
    if |es| <= CHUNK_SIZE {
      assert es[|page|..] == [];
      assert Pages(es) == [es];
    } else {
      assert Pages(es) == [page] + Pages(es[|page|..]);
    }
  }

  lemma {:induction false} Associate(a: seq<Chunk>, b: seq<Chunk>, c: seq<Chunk>)
    ensures a + b + c == a + (b + c)
  {
  }

  /** One turn of the paging loop. */
  lemma {:induction false} Turn(log: Log, start: u32, id: Id, done: seq<Chunk>, page: Log)
    requires Increasing(log) && page == Take(InRange(log, start, U32_MAX), Some(CHUNK_SIZE)) && page != []
    ensures start <= page[|page| - 1].time < U32_MAX
    ensures done + ChunksOf(id, InRange(log, start, U32_MAX))
            == done + [Chunk(id, page)] + ChunksOf(id, InRange(log, page[|page| - 1].time + 1, U32_MAX))
  {
    var left := InRange(log, start, U32_MAX);
    assert page[|page| - 1] == left[|page| - 1];
    NextStart(log, start, |page|);
    ReadOn(log, start, left, |page|, page[|page| - 1].time + 1);
    FirstPage(id, left, page);
    Associate(done, [Chunk(id, page)], ChunksOf(id, left[|page|..]));
  }

  /** What is still to be sent of a sensor from `start` on. */
  function Left(db: Shared, id: Id, start: u32): Log
    requires db.known <= db.logs.Keys
  {
    if id in db.known then InRange(db.logs[id], start, U32_MAX) else []
  }

  /** The paging loop for one sensor; `room` is the number of chunks the receiver still takes, if it goes. */
  method BackupSensor(db: Shared, id: Id, room: Option<nat>) returns (sent: seq<BackupResponse>, gone: bool)
    requires db.known <= db.logs.Keys && (id in db.known ==> Increasing(db.logs[id]))
    ensures gone <==> room.Some? && |ChunksOf(id, Wanted(db, id))| > room.value
    ensures !gone ==> sent == ToResponses(ChunksOf(id, Wanted(db, id)))
    ensures gone ==> sent == ToResponses(ChunksOf(id, Wanted(db, id))[..room.value])
  {
    sent := [];
    var start: u32 := 0;
    ghost var full := ChunksOf(id, Wanted(db, id));
    ghost var done: seq<Chunk> := [];
    while true
      invariant sent == ToResponses(done) && done + ChunksOf(id, Left(db, id, start)) == full
      invariant room.None? || |done| <= room.value
      decreases U32_MAX - start
    {
      var resp := GetLog(db, id, start, U32_MAX, Some(CHUNK_SIZE));
      ghost var page := Take(Left(db, id, start), Some(CHUNK_SIZE));
      assert resp.Some? ==> resp.value == Columns(page);
      if resp.None? || resp.value.time == [] {
        assert Left(db, id, start) == [];
        return sent, false;
      }
      Turn(db.logs[id], start, id, done, page);
      start := resp.value.time[|resp.value.time| - 1] + 1;
      ghost var next := done + [Chunk(id, page)];
      if room.Some? && |sent| == room.value {
        assert full == next + ChunksOf(id, Left(db, id, start));
        assert full[..|done|] == done;
        return sent, true;
      }
      sent := sent + [BackupResponse(id, resp.value)];
      done := next;
    }
  }

  lemma {:induction false} ToResponsesAppend(a: seq<Chunk>, b: seq<Chunk>)
    ensures ToResponses(a + b) == ToResponses(a) + ToResponses(b)
  {
  }

  /** After the first `i` sensors: what has been sent, and what is left. */
  ghost predicate SentSoFar(db: Shared, ids: seq<Id>, i: nat, done: seq<Chunk>, sent: seq<BackupResponse>)
    requires db.known <= db.logs.Keys && i <= |ids|
  {
    && sent == ToResponses(done) && |sent| == |done|
    && done + ChunksOfAll(db, ids[i..]) == ChunksOfAll(db, ids)
  }

  lemma {:induction false} NextSensor(db: Shared, ids: seq<Id>, i: nat, done: seq<Chunk>, sent: seq<BackupResponse>)
    requires db.known <= db.logs.Keys && i < |ids| && SentSoFar(db, ids, i, done, sent)
    ensures var chunks := ChunksOf(ids[i], Wanted(db, ids[i]));
      SentSoFar(db, ids, i + 1, done + chunks, sent + ToResponses(chunks))
  {
    var chunks := ChunksOf(ids[i], Wanted(db, ids[i]));
    assert ids[i..][1..] == ids[i + 1..];
    Associate(done, chunks, ChunksOfAll(db, ids[i + 1..]));
    ToResponsesAppend(done, chunks);
  }

  lemma {:induction false} NoneSent(db: Shared, ids: seq<Id>)
    requires db.known <= db.logs.Keys
    ensures SentSoFar(db, ids, 0, [], [])
  {
    assert ids[0..] == ids && [] + ChunksOfAll(db, ids) == ChunksOfAll(db, ids);
  }

  lemma {:induction false} AllSent(db: Shared, ids: seq<Id>, done: seq<Chunk>, sent: seq<BackupResponse>,
      patience: Option<nat>)
    requires db.known <= db.logs.Keys && SentSoFar(db, ids, |ids|, done, sent)
    requires patience.None? || |sent| <= patience.value
    ensures sent == ToResponses(Received(ChunksOfAll(db, ids), patience))
  {
    assert done + [] == done;
  }

  lemma {:induction false} CutShort(db: Shared, ids: seq<Id>, i: nat, done: seq<Chunk>, sent: seq<BackupResponse>,
      patience: Option<nat>)
    requires db.known <= db.logs.Keys && i < |ids| && SentSoFar(db, ids, i, done, sent)
    requires patience.Some? && |sent| <= patience.value < |sent| + |ChunksOf(ids[i], Wanted(db, ids[i]))|
    ensures sent + ToResponses(ChunksOf(ids[i], Wanted(db, ids[i]))[..patience.value - |sent|])
            == ToResponses(Received(ChunksOfAll(db, ids), patience))
  {
    var chunks := ChunksOf(ids[i], Wanted(db, ids[i]));
    NextSensor(db, ids, i, done, sent);
    assert ChunksOfAll(db, ids)[..patience.value] == done + chunks[..patience.value - |done|];
    ToResponsesAppend(done, chunks[..patience.value - |done|]);
  }

  /** What a receiver that is gone after `patience` chunks, if ever, gets of them. */
  function Received(chunks: seq<Chunk>, patience: Option<nat>): seq<Chunk> {
    if patience.Some? && |chunks| > patience.value then chunks[..patience.value] else chunks
  }

  /** `backup`: page by page through every sensor of one snapshot, in the order of the id table. `patience` is the
      number of chunks after which the receiver is gone, if it goes; then exactly those chunks have been sent. */
  method Backup(db: Shared, ids: seq<Id>, patience: Option<nat>) returns (sent: seq<BackupResponse>)
    requires db.known <= db.logs.Keys && TableOrder(ids, db.ids.Keys)
    requires forall id :: id in db.known ==> Increasing(db.logs[id])
    ensures sent == ToResponses(Received(ChunksOfAll(db, ids), patience))
  {
    sent := [];
    ghost var done: seq<Chunk> := [];
    NoneSent(db, ids);
    for i := 0 to |ids|
      invariant SentSoFar(db, ids, i, done, sent) && (patience.None? || |sent| <= patience.value)
    {
      var room := if patience.Some? then Some(patience.value - |sent|) else None;
      var more, gone := BackupSensor(db, ids[i], room);
      if gone {
        CutShort(db, ids, i, done, sent, patience);
        sent := sent + more;
        return;
      }
      ghost var chunks := ChunksOf(ids[i], Wanted(db, ids[i]));
      NextSensor(db, ids, i, done, sent);
      assert |more| == |chunks|;
      sent, done := sent + more, done + chunks;
    }
    AllSent(db, ids, done, sent, patience);
  }

  // ----- what the full backup holds -----

  lemma {:induction false} ForAppend(a: seq<Chunk>, b: seq<Chunk>, id: Id)
    ensures RowsFor(a + b, id) == RowsFor(a, id) + RowsFor(b, id)
    ensures CountFor(a + b, id) == CountFor(a, id) + CountFor(b, id)
  {
    if a == [] {
      assert a + b == b;
    } else {
      assert (a + b)[1..] == a[1..] + b;
      ForAppend(a[1..], b, id);
    }
  }

  lemma {:induction false} ForChunksOf(id: Id, es: Log, other: Id)
    ensures RowsFor(ChunksOf(id, es), other) == if id == other then es else []
    ensures CountFor(ChunksOf(id, es), other) == if id == other then (|es| + CHUNK_SIZE - 1) / CHUNK_SIZE else 0
    decreases |es|
  {
    if es != [] {
      var page := Take(es, Some(CHUNK_SIZE));
      FirstPage(id, es, page);
      ForChunksOf(id, es[|page|..], other);
      ForAppend([Chunk(id, page)], ChunksOf(id, es[|page|..]), other);
      assert [Chunk(id, page)][1..] == [];
      assert es == page + es[|page|..];
    }
  }

  lemma {:induction false} ForChunksOfAll(db: Shared, ids: seq<Id>, id: Id)
    requires db.known <= db.logs.Keys
    requires forall i, j :: 0 <= i < j < |ids| ==> ids[i] != ids[j]
    ensures RowsFor(ChunksOfAll(db, ids), id) == if id in ids then Wanted(db, id) else []
    ensures CountFor(ChunksOfAll(db, ids), id)
            == if id in ids then (|Wanted(db, id)| + CHUNK_SIZE - 1) / CHUNK_SIZE else 0
  {
    if ids != [] {
      var first, rest := ids[0], ids[1..];
      assert ids == [first] + rest;
      assert forall i :: 0 <= i < |rest| ==> rest[i] == ids[i + 1];
      assert first !in rest;
      ForChunksOf(first, Wanted(db, first), id);
      ForChunksOfAll(db, rest, id);
      ForAppend(ChunksOf(first, Wanted(db, first)), ChunksOfAll(db, rest), id);
    }
  }

  /** For a snapshot of any length, one sensor's chunks put together are every stored entry with a time below
      the largest timestamp, once each and in order, in ceil(n / 8192) chunks. */
  lemma {:induction false} BackupIsTheScan(db: Shared, ids: seq<Id>, id: Id)
    requires db.known <= db.logs.Keys && TableOrder(ids, db.ids.Keys) && id in db.ids && id in db.known
    ensures RowsFor(ChunksOfAll(db, ids), id) == InRange(db.logs[id], 0, U32_MAX)
    ensures CountFor(ChunksOfAll(db, ids), id) == (|InRange(db.logs[id], 0, U32_MAX)| + 8191) / 8192
  {
    ForChunksOfAll(db, ids, id);
  }

  /** What the responses for one sensor hold, row by row. */
  function ResponseRows(sent: seq<BackupResponse>, id: Id): Log {
    if sent == [] then []
    else
      (if sent[0].id == id && Aligned(sent[0].chunk) then Rows(sent[0].chunk) else []) + ResponseRows(sent[1..], id)
  }

  lemma {:induction false} RowsOfResponses(chunks: seq<Chunk>, id: Id)
    ensures ResponseRows(ToResponses(chunks), id) == RowsFor(chunks, id)
  {
    if chunks != [] {
      RowsOfResponses(chunks[1..], id);
      assert ToResponses(chunks)[1..] == ToResponses(chunks[1..]);
      RowsOfColumns(chunks[0].entries);
    }
  }

  /** The same of the rows a patient receiver gets: every row of the scan, field by field, once each and in order. */
  lemma {:induction false} ResponsesAreTheScan(db: Shared, ids: seq<Id>, id: Id)
    requires db.known <= db.logs.Keys && TableOrder(ids, db.ids.Keys) && id in db.ids && id in db.known
    ensures ResponseRows(ToResponses(Received(ChunksOfAll(db, ids), None)), id) == InRange(db.logs[id], 0, U32_MAX)
  {
    BackupIsTheScan(db, ids, id);
    RowsOfResponses(ChunksOfAll(db, ids), id);
  }

  /** The backup of a sensor is complete exactly when nothing is stored at the largest timestamp. */
  lemma {:induction false} BackupIsCompleteIff(db: Shared, ids: seq<Id>, id: Id)
    requires db.known <= db.logs.Keys && TableOrder(ids, db.ids.Keys) && id in db.ids && id in db.known
    ensures RowsFor(ChunksOfAll(db, ids), id) == db.logs[id] <==> forall e :: e in db.logs[id] ==> e.time != 0xFFFF_FFFF
  {
    BackupIsTheScan(db, ids, id);
    InRangeMembers(db.logs[id], 0, U32_MAX);
    InRangeAll(db.logs[id], 0, U32_MAX);
  }

  /** A sensor first seen after the database was opened is in no backup of that session. */
  lemma {:induction false} BackupSkipsNewSensors(db: Shared, ids: seq<Id>, id: Id)
    requires db.known <= db.logs.Keys && TableOrder(ids, db.ids.Keys) && id !in db.known
    ensures RowsFor(ChunksOfAll(db, ids), id) == [] && CountFor(ChunksOfAll(db, ids), id) == 0
  {
    ForChunksOfAll(db, ids, id);
  }
}
