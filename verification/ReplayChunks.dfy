/** Cutting the legacy journal into batches to replay. */
module ReplayChunks {
  datatype Option<+T> = None | Some(value: T)

  const MAX_RECORDS := 256
  const MAX_BYTES := 33_554_432

  // A stored export: its declared size, and the size of what is stored of it.
  datatype Record = Record(ordinal: int, size: int, stored: nat)

  // A row of the legacy journal, which may not be readable as an export.
  datatype Row = Readable(record: Record) | Unreadable

  function Weight(r: Record): nat {
    if r.size < r.stored then r.stored else r.size
  }

  function Bytes(records: seq<Record>): nat {
    if records == [] then 0 else Bytes(records[..|records| - 1]) + Weight(records[|records| - 1])
  }

  function Rows(records: seq<Record>): seq<Row> {
    seq(|records|, i requires 0 <= i < |records| => Readable(records[i]))
  }

  // A batch stays within both limits, except that one oversized record goes alone.
  predicate WithinLimits(batch: seq<Record>) {
    |batch| <= MAX_RECORDS && (|batch| > 1 ==> Bytes(batch) <= MAX_BYTES)
  }

  // What follows the batch did not fit into it.
  predicate Full(batch: seq<Record>, left: seq<Row>) {
    left == [] || |batch| == MAX_RECORDS || (left[0].Readable? && batch != [] && Bytes(batch) + Weight(left[0].record) > MAX_BYTES)
  }

  function Concat(batches: seq<seq<Record>>): seq<Record> {
    if batches == [] then [] else Concat(batches[..|batches| - 1]) + batches[|batches| - 1]
  }

  datatype Chunk = Cut(records: seq<Record>) | Failed

  class ReplayChunkSource {
    const rows: seq<Row>
    var next: nat
    var pending: Option<Record>

    ghost predicate Valid()
      reads this
    {
      next <= |rows|
    }

    // The rows still to be handed out, the one read ahead first.
    ghost function Left(): seq<Row>
      reads this
      requires Valid()
    {
      (if pending.Some? then [Readable(pending.value)] else []) + rows[next..]
    }

    constructor (rows: seq<Row>)
      ensures Valid() && Left() == rows
      ensures this.rows == rows && next == 0 && pending.None?
    {
      this.rows := rows;
      next, pending := 0, None;
    }

    // The next record: the one read ahead, or the next row.
    method Read() returns (record: Option<Record>, failed: bool)
      requires Valid()
      modifies this
      ensures Valid()
      ensures failed <==> old(Left()) != [] && old(Left())[0].Unreadable?
      ensures !failed ==> (record.None? <==> old(Left()) == [])
      ensures !failed && record.Some? ==> old(Left()) == [Readable(record.value)] + Left() && pending.None?
      ensures !failed && record.None? ==> Left() == []
    {
      failed := false;
      if pending.Some? {
        record, pending := pending, None;
        return;
      }
      if next == |rows| {
        return None, false;
      }
      next := next + 1;
      match rows[next - 1]
      case Readable(r) => record := Some(r);
      case Unreadable => return None, true;
    }

    // Next, which a cancelled context may interrupt before every record.
    method Next() returns (chunk: Chunk)
      requires Valid()
      modifies this
      ensures Valid()
      ensures chunk.Cut? ==> old(Left()) == Rows(chunk.records) + Left()
      ensures chunk.Cut? ==> WithinLimits(chunk.records) && Full(chunk.records, Left())
      ensures chunk.Cut? ==> (chunk.records == [] <==> old(Left()) == [])
    {
      var records: seq<Record>, bytes: nat := [], 0;
      assert Rows([]) == [] && old(Left()) == [] + Left();
      while |records| < MAX_RECORDS
        invariant Valid() && bytes == Bytes(records) && WithinLimits(records)
        invariant old(Left()) == Rows(records) + Left()
        decreases MAX_RECORDS - |records|
      {
        var cancelled: bool := *;
        if cancelled {
          return Failed;
        }
        ghost var left := Left();
        var record, failed := Read();
        if failed {
          return Failed;
        }
        if record.None? {
          assert left == [];
          return Cut(records);
        }
        if |records| > 0 && Weight(record.value) > MAX_BYTES - bytes {
          pending := record;
          assert Left() == left;
          return Cut(records);
        }
        TakenNext(old(Left()), records, record.value, Left());
        records, bytes := records + [record.value], bytes + Weight(record.value);
      }
      chunk := Cut(records);
    }

    // The batches cut so far, and what is left, make up the journal.
    ghost predicate Drained(batches: seq<seq<Record>>)
      reads this
    {
      Valid() && rows == Rows(Concat(batches)) + Left() && Proper(batches)
    }

    // Calling Next until it has nothing left, as the producer does.
    method Drain() returns (batches: seq<seq<Record>>, failed: bool)
      requires Valid() && next == 0 && pending.None?
      modifies this
      ensures Rows(Concat(batches)) <= rows
      ensures !failed ==> Rows(Concat(batches)) == rows
      ensures Proper(batches)
    {
      batches, failed := [], false;
      assert Rows([]) == [];
      while true
        invariant Drained(batches)
        decreases |Left()|
      {
        ghost var left := Left();
        var chunk := Next();
        if chunk.Failed? {
          return batches, true;
        }
        if chunk.records == [] {
          return;
        }
        Appended(batches, chunk.records, rows, left, Left());
        batches := batches + [chunk.records];
      }
    }
  }

  lemma TakenNext(rows: seq<Row>, records: seq<Record>, r: Record, left: seq<Row>)
    requires rows == Rows(records) + ([Readable(r)] + left)
    ensures rows == Rows(records + [r]) + left && Bytes(records + [r]) == Bytes(records) + Weight(r)
  {
    assert (records + [r])[..|records|] == records;
    assert Rows(records + [r]) == Rows(records) + [Readable(r)];
  }

  // No batch is empty, and each is within the limits.
  ghost predicate Proper(batches: seq<seq<Record>>) {
    forall k :: 0 <= k < |batches| ==> batches[k] != [] && WithinLimits(batches[k])
  }

  lemma Appended(batches: seq<seq<Record>>, batch: seq<Record>, rows: seq<Row>, left: seq<Row>, rest: seq<Row>)
    requires rows == Rows(Concat(batches)) + left && left == Rows(batch) + rest
    requires Proper(batches) && batch != [] && WithinLimits(batch)
    ensures rows == Rows(Concat(batches + [batch])) + rest && |rest| < |left|
    ensures Proper(batches + [batch])
  {
    assert (batches + [batch])[..|batches|] == batches;
    assert (Rows(Concat(batches)) + Rows(batch)) + rest == Rows(Concat(batches)) + (Rows(batch) + rest);
  }

}
