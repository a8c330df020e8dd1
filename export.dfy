/**
 * The per-table body of the `cli` command: every record that `all_records`
 * yields is flattened and appended both to `records` (kept for the file
 * writers) and to `db_batch`; `db_batch` is handed to `write_batch` and
 * emptied whenever it reaches 100 records, and what is left is handed over
 * once more after the loop, even when nothing is left. `write_batch` inserts
 * into the SQLite table when `--sqlite` was given and does nothing
 * otherwise; the model records the batches the database receives.
 */
module Export {
  import opened Wrappers
  import opened Values
  import opened Records
  import opened Pagination

  const BatchSize := 100

  /** The flat records of a stream of API records, one for one and in order. */
  function FlattenAll(stream: seq<RawRecord>): (rs: seq<Dict>)
    ensures |rs| == |stream|
    ensures forall i :: 0 <= i < |stream| ==> rs[i] == Flatten(stream[i])
  {
    if stream == [] then [] else FlattenAll(stream[..|stream| - 1]) + [Flatten(stream[|stream| - 1])]
  }

  /** The full batches flushed inside the loop: each run of 100 records, in order. */
  function Chunks(rs: seq<Dict>): seq<seq<Dict>>
    decreases |rs|
  {
    if |rs| < BatchSize then [] else [rs[..BatchSize]] + Chunks(rs[BatchSize..])
  }

  /** What `db_batch` holds when the loop ends: the records after the last full batch. */
  function Remainder(rs: seq<Dict>): seq<Dict>
  {
    rs[|rs| - |rs| % BatchSize..]
  }

  /** Every batch `write_batch` receives for a table that was read completely. */
  function Batches(rs: seq<Dict>): seq<seq<Dict>>
  {
    Chunks(rs) + [Remainder(rs)]
  }

  function Concat(bs: seq<seq<Dict>>): seq<Dict>
  {
    if bs == [] then [] else bs[0] + Concat(bs[1..])
  }

  lemma {:induction false} ConcatAppend(bs: seq<seq<Dict>>, b: seq<Dict>)
    ensures Concat(bs + [b]) == Concat(bs) + b
  {
    if bs == [] {
      assert [] + [b] == [b];
    } else {
      assert (bs + [b])[1..] == bs[1..] + [b];
      ConcatAppend(bs[1..], b);
    }
  }

  /** The full batches: |rs| / 100 of them, each of exactly 100 records, together the records before the remainder. */
  lemma {:induction false} ChunksShape(rs: seq<Dict>)
    decreases |rs|
    ensures |Chunks(rs)| == |rs| / BatchSize
    ensures forall i :: 0 <= i < |Chunks(rs)| ==> |Chunks(rs)[i]| == BatchSize
    ensures Concat(Chunks(rs)) == rs[..|rs| - |rs| % BatchSize]
  {
    if |rs| >= BatchSize {
      var tail := rs[BatchSize..];
      ChunksShape(tail);
      assert Chunks(rs)[1..] == Chunks(tail);
      assert |tail| % BatchSize == |rs| % BatchSize;
      assert rs[..BatchSize] + tail[..|tail| - |tail| % BatchSize] == rs[..|rs| - |rs| % BatchSize];
    }
  }

  /**
   * The batches of a completely read table: |rs| / 100 + 1 of them; all but
   * the last hold exactly 100 records; the last holds |rs| mod 100 records
   * and is handed over even when that is zero; together they are the
   * records, in order.
   */
  lemma BatchesShape(rs: seq<Dict>)
    ensures |Batches(rs)| == |rs| / BatchSize + 1
    ensures forall i :: 0 <= i < |Batches(rs)| - 1 ==> |Batches(rs)[i]| == BatchSize
    ensures |Batches(rs)[|Batches(rs)| - 1]| == |rs| % BatchSize
    ensures Concat(Batches(rs)) == rs
  {
    ChunksShape(rs);
    ConcatAppend(Chunks(rs), Remainder(rs));
    assert rs[..|rs| - |rs| % BatchSize] + Remainder(rs) == rs;
  }

  lemma ModSucc(n: nat)
    ensures (n + 1) % BatchSize == if n % BatchSize == BatchSize - 1 then 0 else n % BatchSize + 1
  {
    var q, m := n / BatchSize, n % BatchSize;
    assert n == BatchSize * q + m;
    if m == BatchSize - 1 {
      assert n + 1 == BatchSize * (q + 1) + 0;
    } else {
      assert n + 1 == BatchSize * q + (m + 1);
    }
  }

  /** One more record joins the pending batch, or completes it. */
  lemma RemainderSnoc(rs: seq<Dict>, r: Dict)
    ensures Remainder(rs + [r]) == if |rs| % BatchSize == BatchSize - 1 then [] else Remainder(rs) + [r]
  {
    var n := |rs|;
    ModSucc(n);
    if n % BatchSize != BatchSize - 1 {
      assert (rs + [r])[n - n % BatchSize..] == rs[n - n % BatchSize..] + [r];
    }
  }

  /** One more record flushes a full batch exactly when it completes the pending one. */
  lemma {:induction false} ChunksSnoc(rs: seq<Dict>, r: Dict)
    decreases |rs|
    ensures Chunks(rs + [r]) == if |rs| % BatchSize == BatchSize - 1 then Chunks(rs) + [Remainder(rs) + [r]] else Chunks(rs)
  {
    if |rs| < BatchSize {
      if |rs| == BatchSize - 1 {
        assert (rs + [r])[..BatchSize] == rs + [r];
        assert (rs + [r])[BatchSize..] == [];
      }
    } else {
      var tail := rs[BatchSize..];
      assert (rs + [r])[..BatchSize] == rs[..BatchSize];
      assert (rs + [r])[BatchSize..] == tail + [r];
      ChunksSnoc(tail, r);
      assert |tail| % BatchSize == |rs| % BatchSize;
      assert Remainder(rs) == Remainder(tail);
    }
  }

  /**
   * One more flat record: when the pending batch reaches 100 records it is
   * flushed and the next batch starts empty; otherwise it stays pending.
   */
  lemma CollectStep(records: seq<Dict>, r: Dict)
    ensures var pending := Remainder(records) + [r];
            && (|pending| == BatchSize ==> Chunks(records + [r]) == Chunks(records) + [pending] && Remainder(records + [r]) == [])
            && (|pending| != BatchSize ==> Chunks(records + [r]) == Chunks(records) && Remainder(records + [r]) == pending)
  {
    ChunksSnoc(records, r);
    RemainderSnoc(records, r);
    assert |Remainder(records)| == |records| % BatchSize;
  }

  lemma FlattenAllSnoc(stream: seq<RawRecord>, i: nat)
    requires i < |stream|
    ensures FlattenAll(stream[..i + 1]) == FlattenAll(stream[..i]) + [Flatten(stream[i])]
  {
    assert stream[..i + 1][..i] == stream[..i];
  }

  /**
   * The loop over the yielded records: `records` grows by each flat record,
   * the database receives each full batch of 100 as soon as it fills, and
   * `pending` is what `db_batch` holds at the end.
   */
  method CollectRecords(stream: seq<RawRecord>, toSqlite: bool)
    returns (records: seq<Dict>, received: seq<seq<Dict>>, pending: seq<Dict>)
    ensures records == FlattenAll(stream)
    ensures received == (if toSqlite then Chunks(records) else [])
    ensures pending == Remainder(records)
  {
    records, received, pending := [], [], [];
    var i := 0;
    while i < |stream|
      invariant i <= |stream|
      invariant records == FlattenAll(stream[..i])
      invariant received == (if toSqlite then Chunks(records) else [])
      invariant pending == Remainder(records)
    {
      var r := Flatten(stream[i]);
      CollectStep(records, r);
      FlattenAllSnoc(stream, i);
      records := records + [r];
      pending := pending + [r];
      if |pending| == BatchSize {
        if toSqlite {
          received := received + [pending];
        }
        pending := [];
      }
      i := i + 1;
    }
    assert stream[..i] == stream;
  }

  /**
   * One table: fetch it page by page, flatten and batch its records. When the
   * table is read completely the database (if any) has received
   * `Batches(records)` and the records are returned for the file writers;
   * when a request fails, only the full batches of the records yielded
   * before the failure have reached the database, the last partial batch is
   * never written, and the table ends with the fault.
   */
  method ExportTable(baseId: string, table: Value, pages: seq<Response>, sleep: Seconds, toSqlite: bool)
    returns (events: seq<Event>, received: seq<seq<Dict>>, result: Result<seq<Dict>, Fault>)
    requires TerminatesFrom(pages, 0)
    ensures var w := AllRecordsSpec(baseId, table, pages, sleep);
            var records := FlattenAll(w.yielded);
            && events == w.events
            && (w.fault.None? ==> result == Ok(records) && received == (if toSqlite then Batches(records) else []))
            && (w.fault.Some? ==> result == Err(w.fault.value) && received == (if toSqlite then Chunks(records) else []))
  {
    var yielded, fault;
    events, yielded, fault := AllRecords(baseId, table, pages, sleep);
    var records, pending;
    records, received, pending := CollectRecords(yielded, toSqlite);
    if fault.Some? {
      result := Err(fault.value);
      return;
    }
    if toSqlite {
      received := received + [pending];
    }
    result := Ok(records);
  }

  /** 250 records reach the database as batches of 100, 100 and 50. */
  lemma BatchesOf250(rs: seq<Dict>)
    requires |rs| == 250
    ensures |Batches(rs)| == 3 && |Batches(rs)[0]| == 100 && |Batches(rs)[1]| == 100 && |Batches(rs)[2]| == 50
  {
    BatchesShape(rs);
  }

  /**
   * A 250-record table served as pages of 100, 100 and 50 records, with an
   * offset after the first two pages only: three requests, two pauses, all
   * 250 records, and batches of 100, 100 and 50.
   */
  lemma ThreePageScenario(baseId: string, name: string, r0: seq<RawRecord>, r1: seq<RawRecord>, r2: seq<RawRecord>,
                          o1: string, o2: string)
    requires |r0| == 100 && |r1| == 100 && |r2| == 50 && o1 != "" && o2 != ""
    ensures var pages := [Page(r0, Some(o1)), Page(r1, Some(o2)), Page(r2, None)];
            TerminatesFrom(pages, 0)
            && var w := AllRecordsSpec(baseId, Str(name), pages, DefaultSleep);
               && |Requests(w.events)| == 3
               && SleepCount(w.events) == 2
               && w.yielded == r0 + r1 + r2
               && w.fault == None
               && var bs := Batches(FlattenAll(w.yielded));
                  |bs| == 3 && |bs[0]| == 100 && |bs[1]| == 100 && |bs[2]| == 50
  {
    var pages := [Page(r0, Some(o1)), Page(r1, Some(o2)), Page(r2, None)];
    assert Stops(pages[2]);
    assert !Stops(pages[0]) && !Stops(pages[1]);
    assert FirstStop(pages, 0) == 2;
    AllRecordsOutcome(baseId, Str(name), pages, DefaultSleep);
    assert RecordsIn(pages, 0, 3) == r0 + (r1 + (r2 + []));
    assert r0 + (r1 + (r2 + [])) == r0 + r1 + r2;
    var rs := FlattenAll(r0 + r1 + r2);
    assert |rs| == 250;
    BatchesOf250(rs);
  }
}
