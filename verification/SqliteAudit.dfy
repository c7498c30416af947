/**
 The SQLite store of the same chain (`audit_sqlite.py`): rows carry the record and
 copies of its two hashes in columns. Two verifiers exist, and they do not check
 the same thing.
 */
module SqliteAudit {
  import opened Wrappers
  import opened Values
  import opened Fingerprints
  import opened Redaction
  import opened HashChain
  import opened Audit
  import opened AuditCheckpoint

  datatype Row = Row(previous: Option<string>, hash: string, record: Record)

  function ColumnValue(o: Option<string>): Value
  {
    if o.Some? then Str(o.value) else Null
  }

  function LastColumn(rows: seq<Row>): Value
  {
    if rows == [] then Null else Str(rows[|rows| - 1].hash)
  }

  /** What both verifiers check of a row. */
  predicate RowLinked(sha: Hash, previous: Value, row: Row)
  {
    && ColumnValue(row.previous) == previous && Get(row.record, "previous_hash") == previous
    && Str(row.hash) == RecordHash(sha, previous, Get(row.record, "event"))
  }

  /** The record repeats the hash of its column. */
  predicate Repeats(row: Row)
  {
    Get(row.record, "event_hash") == Str(row.hash)
  }

  predicate Linked(sha: Hash, rows: seq<Row>)
  {
    rows == [] ||
      var init := rows[..|rows| - 1];
      Linked(sha, init) && RowLinked(sha, LastColumn(init), rows[|rows| - 1])
  }

  predicate RowsOk(sha: Hash, rows: seq<Row>)
  {
    Linked(sha, rows) && forall i :: 0 <= i < |rows| ==> Repeats(rows[i])
  }

  lemma {:induction false} LinkedPrefix(sha: Hash, rows: seq<Row>, n: nat)
    requires n <= |rows| && Linked(sha, rows)
    ensures Linked(sha, rows[..n])
  {
    hide RowLinked, LastColumn;
    if n < |rows| {
      LinkedPrefix(sha, rows[..|rows| - 1], n);
      assert rows[..|rows| - 1][..n] == rows[..n];
    } else {
      assert rows[..n] == rows;
    }
  }

  lemma LinkedStep(sha: Hash, rows: seq<Row>, i: nat)
    requires i < |rows| && Linked(sha, rows[..i])
    ensures Linked(sha, rows[..i + 1]) <==> RowLinked(sha, LastColumn(rows[..i]), rows[i])
    ensures !RowLinked(sha, LastColumn(rows[..i]), rows[i]) ==> !Linked(sha, rows)
  {
    hide RowLinked, LastColumn;
    assert rows[..i + 1][..i] == rows[..i];
    if Linked(sha, rows) { LinkedPrefix(sha, rows, i + 1); }
  }

  lemma RowsStep(sha: Hash, rows: seq<Row>, i: nat)
    requires i < |rows| && RowsOk(sha, rows[..i])
    ensures RowsOk(sha, rows[..i + 1]) <==> RowLinked(sha, LastColumn(rows[..i]), rows[i]) && Repeats(rows[i])
    ensures !RowsOk(sha, rows[..i + 1]) ==> !RowsOk(sha, rows)
    ensures LastColumn(rows[..i + 1]) == Str(rows[i].hash)
  {
    hide RowLinked, Repeats;
    LinkedStep(sha, rows, i);
    assert rows[..i + 1][i] == rows[i];
    assert forall j :: 0 <= j < i ==> rows[..i + 1][j] == rows[..i][j];
    if RowsOk(sha, rows) {
      LinkedPrefix(sha, rows, i + 1);
      assert Repeats(rows[i]);
    }
  }

  /** `verify_sqlite_audit_chain`: the verdict, and how many rows were good. */
  method VerifySqliteChain(sha: Hash, rows: seq<Row>) returns (ok: bool, count: nat)
    ensures ok <==> RowsOk(sha, rows)
    ensures if ok then count == |rows|
        else count < |rows| && RowsOk(sha, rows[..count]) && !RowsOk(sha, rows[..count + 1])
  {
    hide RowsOk, LastColumn, RecordHash;
    var previousHash: Value := Null;
    EmptyRows(sha);
    for i := 0 to |rows|
      invariant previousHash == LastColumn(rows[..i]) && RowsOk(sha, rows[..i])
    {
      RowsStep(sha, rows, i);
      var row := rows[i];
      if ColumnValue(row.previous) != previousHash || Get(row.record, "previous_hash") != previousHash {
        return false, i;
      }
      var expected := RecordHash(sha, previousHash, Get(row.record, "event"));
      if Str(row.hash) != expected || Get(row.record, "event_hash") != expected {
        return false, i;
      }
      previousHash := expected;
    }
    assert rows[..|rows|] == rows;
    return true, |rows|;
  }

  lemma EmptyRows(sha: Hash)
    ensures RowsOk(sha, []) && LastColumn([]) == Null
  {
  }

  /** `verify_sqlite_audit_chain_rows`: the record's own copy of the hash is not looked at. */
  method VerifySqliteChainRows(sha: Hash, rows: seq<Row>) returns (ok: bool)
    ensures ok <==> Linked(sha, rows)
  {
    var previousHash: Value := Null;
    for i := 0 to |rows|
      invariant previousHash == LastColumn(rows[..i]) && Linked(sha, rows[..i])
    {
      LinkedStep(sha, rows, i);
      var row := rows[i];
      if ColumnValue(row.previous) != previousHash || Get(row.record, "previous_hash") != previousHash {
        return false;
      }
      if Str(row.hash) != RecordHash(sha, previousHash, Get(row.record, "event")) {
        return false;
      }
      previousHash := Str(row.hash);
    }
    assert rows[..|rows|] == rows;
    return true;
  }

  // --------------------------------------------------- rows against records

  function Records(rows: seq<Row>): (log: seq<Record>)
    ensures |log| == |rows|
  {
    seq(|rows|, i requires 0 <= i < |rows| => rows[i].record)
  }

  /** The columns are copies of the record's hashes. */
  predicate Mirrored(rows: seq<Row>)
  {
    forall i :: 0 <= i < |rows|
        ==> Repeats(rows[i]) && Get(rows[i].record, "previous_hash") == ColumnValue(rows[i].previous)
  }

  /** The full verdict is the chain verdict on the records, plus faithful columns. */
  lemma {:induction false} RowsMeanRecords(sha: Hash, rows: seq<Row>)
    ensures RowsOk(sha, rows) <==> ChainOk(sha, Records(rows)) && Mirrored(rows)
    ensures Mirrored(rows) ==> LastColumn(rows) == LastHash(Null, Views(Records(rows)))
  {
    if rows == [] {
      assert Views(Records(rows)) == [];
    } else {
      hide RecordHash, LastHash;
      var init := rows[..|rows| - 1];
      var last := rows[|rows| - 1];
      RowsMeanRecords(sha, init);
      assert rows == init + [last];
      SplitMirrored(init, last);
      SplitRepeats(init, last);
      SplitChain(sha, init, last);
    }
  }

  lemma SplitMirrored(init: seq<Row>, last: Row)
    ensures Mirrored(init + [last])
       <==> Mirrored(init) && Repeats(last) && Get(last.record, "previous_hash") == ColumnValue(last.previous)
  {
    hide Repeats, ColumnValue;
    var rows := init + [last];
    assert rows[|init|] == last && forall i :: 0 <= i < |init| ==> rows[i] == init[i];
  }

  lemma SplitRepeats(init: seq<Row>, last: Row)
    ensures (forall i :: 0 <= i < |init + [last]| ==> Repeats((init + [last])[i]))
       <==> (forall i :: 0 <= i < |init| ==> Repeats(init[i])) && Repeats(last)
  {
    hide Repeats;
    var rows := init + [last];
    assert rows[|init|] == last && forall i :: 0 <= i < |init| ==> rows[i] == init[i];
  }

  lemma SplitChain(sha: Hash, init: seq<Row>, last: Row)
    ensures ChainOk(sha, Records(init + [last]))
       <==> ChainOk(sha, Records(init)) && Link(Digesting(sha), LastHash(Null, Views(Records(init))), View(last.record))
    ensures LastHash(Null, Views(Records(init + [last]))) == Get(last.record, "event_hash")
  {
    hide RecordHash, Link;
    assert Records(init + [last]) == Records(init) + [last.record];
    var views := Views(Records(init + [last]));
    assert views[..|init|] == Views(Records(init)) && views[|init|] == View(last.record);
  }

  /** A row whose stored record was given another hash: only one verifier notices. */
  lemma AlteredHashUnnoticed(sha: Hash, event: Value, other: Value)
    requires NoBytes(Unsigned(Null, event)) && other != RecordHash(sha, Null, event)
    ensures exists row: Row :: Linked(sha, [row]) && !RowsOk(sha, [row]) && Get(row.record, "event_hash") == other
  {
    hide Linked, RecordHash, NoBytes, Unsigned;
    assert RecordHash(sha, Null, event).Str? by { HashIsText(sha, event); }
    var row := Row(None, RecordHash(sha, Null, event).s, AlteredRecord(event, other));
    AlteredEntries(event, other);
    assert [row][..0] == [];
    EmptyRows(sha);
    LinkedStep(sha, [row], 0);
    assert [row][..1] == [row];
    assert [row][0] == row && !Repeats([row][0]);
  }

  lemma HashIsText(sha: Hash, event: Value)
    requires NoBytes(Unsigned(Null, event))
    ensures RecordHash(sha, Null, event).Str?
  {
  }

  function AlteredRecord(event: Value, other: Value): Record
  {
    map["previous_hash" := Null, "event" := event, "event_hash" := other]
  }

  lemma AlteredEntries(event: Value, other: Value)
    ensures var r := AlteredRecord(event, other);
      Get(r, "previous_hash") == Null && Get(r, "event") == event && Get(r, "event_hash") == other
  {
  }

  // ---------------------------------------------------------------- the sink

  /** `SQLiteAuditSink`: the table in insertion order. */
  class SqliteAuditSink {
    const rules: Rules
    const sha: Hash
    var rows: seq<Row>

    ghost predicate Valid()
      reads this
    {
      RowsOk(sha, rows) && AllDecoded(Records(rows))
    }

    constructor (rules: Rules, sha: Hash)
      ensures Valid() && rows == [] && this.rules == rules && this.sha == sha
    {
      this.rules, this.sha, rows := rules, sha, [];
    }

    /** Inserts one redacted event: the same record that the JSON lines sink would append. */
    method Emit(e: AuditEvent) returns (written: bool)
      requires Valid()
      modifies this
      ensures Valid()
      ensures written <==> NoBytes(EventValue(RedactedEvent(rules, e)))
      ensures Records(rows) == if written
        then old(Records(rows))
            + [WrittenRecord(sha, LastHash(Null, Views(old(Records(rows)))), EventValue(RedactedEvent(rules, e)))]
        else old(Records(rows))
    {
      var payload := RedactedEventPayload(rules, e);
      var event := EventValue(payload);
      if !NoBytes(event) {
        return false;
      }
      hide RowsOk, WrittenRecord, RecordHash, ChainOk, Linked, NoBytes, EventValue, RedactedEvent, Views;
      var previous := if rows == [] then None else Some(rows[|rows| - 1].hash);
      assert ColumnValue(previous) == LastColumn(rows);
      RowsMeanRecords(sha, rows);
      RecordHashReload(sha, ColumnValue(previous), event);
      var row := Row(previous, RecordHash(sha, ColumnValue(previous), event).s,
                     WrittenRecord(sha, ColumnValue(previous), event));
      RowAppends(sha, rows, event, row);
      rows := rows + [row];
      return true;
    }
  }

  lemma RowAppends(sha: Hash, rows: seq<Row>, event: Value, row: Row)
    requires RowsOk(sha, rows) && AllDecoded(Records(rows)) && NoBytes(event)
    requires row.record == WrittenRecord(sha, LastColumn(rows), event) && ColumnValue(row.previous) == LastColumn(rows)
    requires Str(row.hash) == RecordHash(sha, LastColumn(rows), event)
    ensures RowsOk(sha, rows + [row]) && AllDecoded(Records(rows + [row]))
    ensures Records(rows + [row]) == Records(rows) + [WrittenRecord(sha, LastHash(Null, Views(Records(rows))), event)]
  {
    hide RowsOk, WrittenRecord, RecordHash, ChainOk, Linked, NoBytes;
    RowsMeanRecords(sha, rows);
    WriteKeepsChain(sha, Records(rows), event);
    assert Records(rows + [row]) == Records(rows) + [row.record];
    RowMirrors(sha, LastColumn(rows), event, row);
    RowsMeanRecords(sha, rows + [row]);
  }

  lemma RowMirrors(sha: Hash, previous: Value, event: Value, row: Row)
    requires NoBytes(event) && Plain(previous)
    requires row.record == WrittenRecord(sha, previous, event) && ColumnValue(row.previous) == previous
    requires Str(row.hash) == RecordHash(sha, previous, event)
    ensures Repeats(row) && Get(row.record, "previous_hash") == ColumnValue(row.previous)
  {
  }

  // ------------------------------------------------------------- checkpoints

  /** `verify_sqlite_audit_checkpoint` of a parsed checkpoint. */
  predicate SqliteAccepts(sha: Hash, rows: seq<Row>, c: Checkpoint)
  {
    && RowsOk(sha, rows) && c.eventCount <= |rows|
    && (0 < c.eventCount ==> Get(rows[c.eventCount - 1].record, "event_hash") == OptionalText(c.lastEventHash))
  }

  /**
   A checkpoint taken on a log is accepted by a table exactly when the table's columns mirror its records and
   the records are a sound chain beginning with that log.
   */
  lemma SqliteCheckpointMeaning(env: Env, log: seq<Record>, id: string, auditLogId: string,
                                metadata: map<string, Value>,
                                previous: Option<string>, now: int, c: Checkpoint, rows: seq<Row>)
    requires CollisionFree(env.sha) && AllDecoded(log) && AllDecoded(Records(rows))
    requires Create(env, log, id, auditLogId, metadata, previous, now) == Ok(c)
    ensures SqliteAccepts(env.sha, rows, c)
       <==> (Mirrored(rows) && ChainOk(env.sha, Records(rows)) && Views(log) <= Views(Records(rows)))
  {
    hide RowsOk, Mirrored, ChainOk, Create, NoBytes, Plain, Views;
    RowsMeanRecords(env.sha, rows);
    CreatedFields(env, log, id, auditLogId, metadata, previous, now, c);
    CheckpointMeaning(env, log, id, auditLogId, metadata, previous, now, c, Records(rows));
  }
}
