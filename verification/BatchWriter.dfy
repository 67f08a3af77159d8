/** The batch writer (internal/consumer/writer.go), method by method. */
module BatchWriter {
  import opened Wrappers

  datatype Row = Row(eventId: string, fields: seq<string>)

  type Batches = map<string, seq<Row>>

  /** A table's buffer; a missing key and a nil slice are both empty. */
  function Buffer(batches: Batches, table: string): seq<Row> {
    if table in batches then batches[table] else []
  }

  /** The critical section of append. */
  function Appended(batches: Batches, table: string, row: Row): Batches {
    batches[table := Buffer(batches, table) + [row]]
  }

  /** The critical section of flush. */
  function Emptied(batches: Batches, table: string): Batches {
    batches[table := []]
  }

  /** Table t in the middle of a full flush: still as before, or flushed. */
  ghost predicate FlushedUpTo(b0: Batches, i0: Batches, b: Batches, i: Batches, rest: set<string>,
                              connected: bool, insertFails: string -> bool, t: string)
  {
    if t in rest then Buffer(b, t) == Buffer(b0, t) && Buffer(i, t) == Buffer(i0, t)
    else Buffer(b, t) == []
         && Buffer(i, t) == if connected && !insertFails(t) then Buffer(i0, t) + Buffer(b0, t) else Buffer(i0, t)
  }

  class BatchWriter {
    const batchSize: int
    var batches: Batches
    var timerArmed: bool
    var connected: bool
    var inserted: Batches  // what ClickHouse holds

    constructor (batchSize: int)
      ensures this.batchSize == batchSize && batches == map[] && inserted == map[] && timerArmed && connected
    {
      this.batchSize := batchSize;
      batches, inserted, timerArmed, connected := map[], map[], true, true;
    }

    /** Buffers a row; the caller spawns a flush when told to. */
    method Append(table: string, row: Row) returns (spawnFlush: bool)
      modifies this`batches
      ensures batches == Appended(old(batches), table, row)
      ensures forall t :: Buffer(batches, t) == old(Buffer(batches, t)) + (if t == table then [row] else [])
      ensures spawnFlush <==> |Buffer(batches, table)| >= batchSize
    {
      batches := batches[table := Buffer(batches, table) + [row]];
      var size := |batches[table]|;
      spawnFlush := size >= batchSize;
    }

    /** Inserts all rows or none; badRow is a row that cannot be encoded, if any. */
    method InsertBatch(table: string, rows: seq<Row>, prepareFails: bool, badRow: Option<nat>, sendFails: bool)
      returns (ok: bool)
      modifies this`inserted
      ensures ok <==> connected && !prepareFails && !(badRow.Some? && badRow.value < |rows|) && !sendFails
      ensures ok ==> inserted == old(inserted)[table := Buffer(old(inserted), table) + rows]
      ensures !ok ==> inserted == old(inserted)
    {
      if prepareFails || !connected {
        return false;
      }
      var batch: seq<Row> := [];
      var i := 0;
      while i < |rows|
        invariant 0 <= i <= |rows| && batch == rows[..i]
        invariant badRow.Some? ==> i <= badRow.value || badRow.value >= |rows|
      {
        if badRow == Some(i) {
          return false;
        }
        batch := batch + [rows[i]];
        i := i + 1;
      }
      assert batch == rows;
      if sendFails {
        return false;
      }
      inserted := inserted[table := Buffer(inserted, table) + batch];
      ok := true;
    }

    /** Takes the buffer and inserts it; the rows of a failed insert are gone. */
    method Flush(table: string, insertFails: bool)
      modifies this`batches, this`inserted
      ensures batches == Emptied(old(batches), table)
      ensures forall t :: Buffer(inserted, t)
                == if t == table && connected && !insertFails then Buffer(old(inserted), t) + Buffer(old(batches), t)
                   else Buffer(old(inserted), t)
    {
      var rows := Buffer(batches, table);
      batches := batches[table := []];
      if |rows| == 0 {
        return;
      }
      var ok := InsertBatch(table, rows, insertFails, None, false);
    }

    /** Run alone, empties every buffer into the database, table by table, and re-arms the timer. */
    method FlushAll(insertFails: string -> bool)
      modifies this`batches, this`inserted, this`timerArmed
      ensures timerArmed && batches.Keys == old(batches).Keys
      ensures forall t :: Buffer(batches, t) == []
      ensures forall t :: Buffer(inserted, t)
                == if connected && !insertFails(t) then Buffer(old(inserted), t) + Buffer(old(batches), t)
                   else Buffer(old(inserted), t)
    {
      ghost var b0, i0 := batches, inserted;
      var rest := batches.Keys;
      while rest != {}
        invariant rest <= b0.Keys == batches.Keys
        invariant forall t :: FlushedUpTo(b0, i0, batches, inserted, rest, connected, insertFails, t)
        decreases |rest|
      {
        var t :| t in rest;
        ghost var b1, i1 := batches, inserted;
        Flush(t, insertFails(t));
        forall x ensures FlushedUpTo(b0, i0, batches, inserted, rest - {t}, connected, insertFails, x) {
          assert FlushedUpTo(b0, i0, b1, i1, rest, connected, insertFails, x);
        }
        rest := rest - {t};
      }
      forall t
        ensures Buffer(batches, t) == []
        ensures Buffer(inserted, t) == if connected && !insertFails(t) then Buffer(i0, t) + Buffer(b0, t) else Buffer(i0, t)
      {
        assert FlushedUpTo(b0, i0, batches, inserted, rest, connected, insertFails, t);
      }
      timerArmed := true;
    }

    /** Flushes and disconnects. The timer it stops is armed again by its own flush. */
    method Close(insertFails: string -> bool)
      modifies this
      ensures !connected && timerArmed
      ensures forall t :: Buffer(batches, t) == []
      ensures forall t :: Buffer(inserted, t)
                == if old(connected) && !insertFails(t) then Buffer(old(inserted), t) + Buffer(old(batches), t)
                   else Buffer(old(inserted), t)
    {
      timerArmed := false;
      FlushAll(insertFails);
      connected := false;
    }
  }
}
