/**
 The queue file over whole runs: every command loads the file, edits one record and
 rewrites the file sorted by creation time.
 */
module ApprovalQueueRuns {
  import opened Wrappers
  import opened Redaction
  import opened Approvals
  import opened ApprovalQueue

  // ------------------------------------------------------- loading and saving

  function IndexOf(records: seq<LocalRecord>, id: string): (i: int)
    ensures -1 <= i < |records|
    ensures i >= 0 ==> records[i].id == id
    ensures i < 0 ==> forall r :: r in records ==> r.id != id
  {
    if records == [] then -1
    else if records[|records| - 1].id == id then |records| - 1
    else IndexOf(records[..|records| - 1], id)
  }

  /** `records[record.id] = record` on an insertion-ordered dict. */
  function Put(records: seq<LocalRecord>, r: LocalRecord): seq<LocalRecord>
  {
    var i := IndexOf(records, r.id);
    if i >= 0 then records[i := r] else records + [r]
  }

  /** `_load_records` */
  function LoadAll(env: Env, file: seq<LocalRecord>): Result<seq<LocalRecord>>
  {
    if file == [] then Ok([])
    else
      var before := LoadAll(env, file[..|file| - 1]);
      var last := Read(env, file[|file| - 1]);
      if before.Err? then before
      else if last.Err? then Err(last.error)
      else Ok(Put(before.value, last.value))
  }

  /** Stable insertion after every record that is not newer. */
  function InsertByTime(sorted: seq<LocalRecord>, r: LocalRecord): seq<LocalRecord>
  {
    if sorted == [] || sorted[|sorted| - 1].createdAt <= r.createdAt then sorted + [r]
    else InsertByTime(sorted[..|sorted| - 1], r) + [sorted[|sorted| - 1]]
  }

  /** `_save_records`: sorted by creation time, written out. */
  function Saved(records: seq<LocalRecord>): seq<LocalRecord>
  {
    if records == [] then [] else InsertByTime(Saved(records[..|records| - 1]), Written(records[|records| - 1]))
  }

  // ---------------------------------------------------------------- commands

  datatype Command =
    | Enqueue(record: LocalRecord)
    | ApproveCommand(id: string, operator: string, scope: GrantScope, reason: Option<string>)
    | DenyCommand(id: string, operator: string, reason: Option<string>)
    | ExpireCommand(id: string, operator: string, reason: Option<string>)
    | ConsumeMatching(action: Binding)

  /** What the clock says when a command reads it for the first, second and later time. */
  type Readings = nat -> int

  function Decide(env: Env, r: LocalRecord, c: Command, now: int, nonce: string): Result<LocalRecord>
    requires c.ApproveCommand? || c.DenyCommand? || c.ExpireCommand?
  {
    match c
    case ApproveCommand(_, operator, scope, reason) => Approve(env, r, operator, scope, reason, now, nonce)
    case DenyCommand(_, operator, reason) => Deny(env, r, operator, reason, now, nonce)
    case ExpireCommand(_, operator, reason) => Expire(env, r, operator, reason, now, nonce)
  }

  /** The first record that `matches_action`, with one reading of the clock for each record looked at. */
  function FirstMatch(records: seq<LocalRecord>, action: Binding, clock: Readings): (i: int)
    ensures -1 <= i < |records|
    ensures i >= 0 ==> MatchesAction(records[i], action, clock(i))
  {
    FirstMatchFrom(records, 0, action, clock)
  }

  function FirstMatchFrom(records: seq<LocalRecord>, k: nat, action: Binding, clock: Readings): (i: int)
    requires k <= |records|
    ensures -1 <= i < |records|
    ensures i >= 0 ==> MatchesAction(records[i], action, clock(i))
    decreases |records| - k
  {
    if k == |records| then -1
    else if MatchesAction(records[k], action, clock(k)) then k
    else FirstMatchFrom(records, k + 1, action, clock)
  }

  /** The file after a command; an error leaves the file as it was. */
  function RunCommand(env: Env, file: seq<LocalRecord>, c: Command, clock: Readings, nonce: string)
    : Result<seq<LocalRecord>>
  {
    var loaded := LoadAll(env, file);
    if c.Enqueue? && FromMcpResult(env, c.record).Err? then Err(FromMcpResult(env, c.record).error)
    else if loaded.Err? then loaded
    else
      var records := loaded.value;
      match c
      case Enqueue(r) =>
        if IndexOf(records, r.id) >= 0 then Ok(file) else Ok(Saved(records + [FromMcpResult(env, r).value]))
      case ConsumeMatching(action) =>
        var i := FirstMatch(records, action, clock);
        if i < 0 || records[i].scope == Some(PerSession) then Ok(file)
        else
          var updated := Consume(env, records[i], clock(i + 1));
          if updated.Err? then Err(updated.error) else Ok(Saved(records[i := updated.value]))
      case _ =>
        var i := IndexOf(records, c.id);
        if i < 0 then Err("Unknown approval id: " + c.id)
        else
          var updated := Decide(env, records[i], c, clock(0), nonce);
          if updated.Err? then Err(updated.error) else Ok(Saved(records[i := updated.value]))
  }

  // ------------------------------------------------------------- the queue class

  class LocalApprovalQueue {
    const env: Env
    var file: seq<LocalRecord>

    constructor (env: Env)
      ensures this.env == env && file == []
    {
      this.env, file := env, [];
    }

    method LoadRecords() returns (r: Result<seq<LocalRecord>>)
      ensures r == LoadAll(env, file)
    {
      var records: seq<LocalRecord> := [];
      for i := 0 to |file|
        invariant LoadAll(env, file[..i]) == Ok(records)
      {
        assert file[..i + 1][..i] == file[..i];
        var next := Read(env, file[i]);
        if next.Err? {
          LoadStops(env, file, i + 1);
          return Err(next.error);
        }
        records := Put(records, next.value);
      }
      assert file[..|file|] == file;
      return Ok(records);
    }

    method SaveRecords(records: seq<LocalRecord>)
      modifies this
      ensures file == Saved(records)
    {
      var sorted: seq<LocalRecord> := [];
      for i := 0 to |records|
        invariant sorted == Saved(records[..i])
      {
        assert records[..i + 1][..i] == records[..i];
        sorted := InsertByTime(sorted, Written(records[i]));
      }
      assert records[..|records|] == records;
      file := sorted;
    }

    method EnqueueMcpResult(record: LocalRecord) returns (error: Option<string>)
      modifies this
      ensures match RunCommand(env, old(file), Enqueue(record), k => 0, "")
              case Ok(next) => error.None? && file == next
              case Err(e) => error == Some(e) && file == old(file)
    {
      var queued := FromMcpResult(env, record);
      if queued.Err? {
        return Some(queued.error);
      }
      var loaded := LoadRecords();
      if loaded.Err? {
        return Some(loaded.error);
      }
      if IndexOf(loaded.value, record.id) >= 0 {
        return None;
      }
      SaveRecords(loaded.value + [queued.value]);
      return None;
    }

    /** `approve`, `deny` and `expire` */
    method Update(c: Command, clock: Readings, nonce: string) returns (error: Option<string>)
      requires c.ApproveCommand? || c.DenyCommand? || c.ExpireCommand?
      modifies this
      ensures match RunCommand(env, old(file), c, clock, nonce)
              case Ok(next) => error.None? && file == next
              case Err(e) => error == Some(e) && file == old(file)
    {
      var loaded := LoadRecords();
      if loaded.Err? {
        return Some(loaded.error);
      }
      var i := IndexOf(loaded.value, c.id);
      if i < 0 {
        return Some("Unknown approval id: " + c.id);
      }
      var updated := Decide(env, loaded.value[i], c, clock(0), nonce);
      if updated.Err? {
        return Some(updated.error);
      }
      SaveRecords(loaded.value[i := updated.value]);
      return None;
    }

    method MarkMatchingConsumed(action: Binding, clock: Readings) returns (error: Option<string>)
      modifies this
      ensures match RunCommand(env, old(file), ConsumeMatching(action), clock, "")
              case Ok(next) => error.None? && file == next
              case Err(e) => error == Some(e) && file == old(file)
    {
      hide LoadAll, Saved, Consume, MatchesAction, IndexOf;
      var loaded := LoadRecords();
      if loaded.Err? {
        return Some(loaded.error);
      }
      var records := loaded.value;
      var i := 0;
      while i < |records|
        invariant 0 <= i <= |records|
        invariant FirstMatch(records, action, clock) == FirstMatchFrom(records, i, action, clock)
        invariant file == old(file)
      {
        if MatchesAction(records[i], action, clock(i)) {
          if records[i].scope == Some(PerSession) {
            return None;
          }
          var updated := Consume(env, records[i], clock(i + 1));
          if updated.Err? {
            return Some(updated.error);
          }
          SaveRecords(records[i := updated.value]);
          return None;
        }
        i := i + 1;
      }
      return None;
    }
  }

  /** One unreadable record makes the whole file unreadable. */
  lemma {:induction false} LoadStops(env: Env, file: seq<LocalRecord>, i: nat)
    requires 0 < i <= |file| && LoadAll(env, file[..i]).Err?
    ensures LoadAll(env, file) == LoadAll(env, file[..i])
  {
    if i == |file| {
      assert file[..i] == file;
    } else {
      assert file[..|file| - 1][..i] == file[..i];
      LoadStops(env, file[..|file| - 1], i);
    }
  }

  // ------------------------------------------------------------- invariant

  predicate Unique(records: seq<LocalRecord>)
  {
    forall i, j :: 0 <= i < j < |records| ==> records[i].id != records[j].id
  }

  ghost predicate Sound(records: seq<LocalRecord>)
  {
    Unique(records) && forall r :: r in records ==> Stored(r)
  }

  /** Every record names a target, which is all that a stored record may lack to be read back. */
  predicate Targeted(records: seq<LocalRecord>)
  {
    forall r :: r in records ==> r.action.target != ""
  }

  /** The same record, rebuilt: only redacted fields may differ. */
  predicate Rebuilt(r: LocalRecord, s: LocalRecord)
  {
    s == r.(request := s.request, redactions := s.redactions, message := s.message, reason := s.reason)
        && (Stored(r) ==> Stored(s))
  }

  lemma ReadRebuilds(env: Env, r: LocalRecord)
    requires Complete(r)
    ensures Read(env, r).Ok? && Rebuilt(r, Read(env, r).value)
  {
    hide BLOCKED, Unapprovable;
  }

  lemma WrittenRebuilds(r: LocalRecord)
    ensures Rebuilt(r, Written(r))
  {
    hide BLOCKED, Unapprovable;
  }

  /** A sound file of targeted records loads, record by record. */
  lemma {:induction false} LoadRebuilds(env: Env, file: seq<LocalRecord>)
    requires Sound(file) && Targeted(file)
    ensures LoadAll(env, file).Ok?
    ensures var records := LoadAll(env, file).value;
      |records| == |file| && Sound(records) && forall i :: 0 <= i < |file| ==> Rebuilt(file[i], records[i])
  {
    hide Read, Rebuilt, Stored, Put;
    if file != [] {
      var before := file[..|file| - 1];
      var last := file[|file| - 1];
      assert file == before + [last];
      assert forall r :: r in before ==> r in file;
      LoadRebuilds(env, before);
      assert last in file;
      StoredComplete(last);
      ReadRebuilds(env, last);
      ExtendRebuilt(before, last, LoadAll(env, before).value, Read(env, last).value);
    }
  }

  /** A record without a target makes the whole file unreadable. */
  lemma {:induction false} UntargetedStops(env: Env, file: seq<LocalRecord>)
    requires !Targeted(file)
    ensures LoadAll(env, file).Err?
  {
    hide Put;
    var before := file[..|file| - 1];
    var last := file[|file| - 1];
    assert file == before + [last];
    if last.action.target != "" { UntargetedStops(env, before); }
  }

  lemma LoadsExactly(env: Env, file: seq<LocalRecord>)
    requires Sound(file)
    ensures LoadAll(env, file).Ok? <==> Targeted(file)
  {
    hide LoadAll, Sound;
    if Targeted(file) { LoadRebuilds(env, file); } else { UntargetedStops(env, file); }
  }

  lemma ExtendRebuilt(before: seq<LocalRecord>, last: LocalRecord, records: seq<LocalRecord>, read: LocalRecord)
    requires Sound(before + [last]) && Sound(records) && |records| == |before|
    requires Rebuilt(last, read) && forall i :: 0 <= i < |before| ==> Rebuilt(before[i], records[i])
    ensures Put(records, read) == records + [read] && Sound(records + [read])
    ensures forall i :: 0 <= i < |before| + 1 ==> Rebuilt((before + [last])[i], (records + [read])[i])
  {
    hide Rebuilt, Stored;
    var file := before + [last];
    assert file[|before|] == last && last in file;
    RebuiltFacts(last, read);
    forall i | 0 <= i < |records| ensures records[i].id != read.id {
      RebuiltFacts(before[i], records[i]);
      assert file[i] == before[i];
    }
    assert IndexOf(records, read.id) < 0;
  }

  lemma StoredComplete(r: LocalRecord)
    requires Stored(r) && r.action.target != ""
    ensures Complete(r) && Storable(r)
  {
  }

  lemma StorableStored(r: LocalRecord)
    requires Storable(r)
    ensures Stored(r) && r.action.target != ""
  {
  }

  lemma RebuiltFacts(r: LocalRecord, s: LocalRecord)
    requires Rebuilt(r, s)
    ensures s.id == r.id && s.action == r.action && s.status == r.status && (Stored(r) ==> Stored(s)) && Continues(r, s)
  {
    hide Stored;
  }

  /** r goes on in `next`, along the graph and with its binding. */
  ghost predicate Carried(r: LocalRecord, next: seq<LocalRecord>)
  {
    exists s :: s in next && Continues(r, s)
  }

  ghost predicate Follows(file: seq<LocalRecord>, next: seq<LocalRecord>)
  {
    forall r :: r in file ==> Carried(r, next)
  }

  lemma {:induction false} InsertMembers(sorted: seq<LocalRecord>, r: LocalRecord)
    requires Unique(sorted) && forall s :: s in sorted ==> s.id != r.id
    ensures Unique(InsertByTime(sorted, r))
    ensures forall s :: s in InsertByTime(sorted, r) <==> s in sorted || s == r
  {
    if sorted != [] && sorted[|sorted| - 1].createdAt > r.createdAt {
      var before := sorted[..|sorted| - 1];
      var last := sorted[|sorted| - 1];
      assert sorted == before + [last];
      assert forall s :: s in before ==> s in sorted;
      InsertMembers(before, r);
      var inserted := InsertByTime(before, r);
      assert last in sorted;
      forall s | s in inserted ensures s.id != last.id {
        if s != r {
          var k :| 0 <= k < |before| && before[k] == s;
          assert sorted[k] == s && sorted[|before|] == last;
        }
      }
      AppendUnique(inserted, last);
    }
  }

  lemma AppendUnique(records: seq<LocalRecord>, last: LocalRecord)
    requires Unique(records) && forall s :: s in records ==> s.id != last.id
    ensures Unique(records + [last])
  {
    assert forall i :: 0 <= i < |records| ==> records[i] in records;
  }

  /** s is the written form of one of the records. */
  predicate WrittenOf(records: seq<LocalRecord>, s: LocalRecord)
  {
    exists i :: 0 <= i < |records| && s == Written(records[i])
  }

  lemma {:induction false} SavedMembers(records: seq<LocalRecord>)
    requires Unique(records)
    ensures Unique(Saved(records))
    ensures forall s :: s in Saved(records) <==> WrittenOf(records, s)
  {
    hide Written, InsertByTime, WrittenOf;
    if records == [] {
      forall s ensures !WrittenOf(records, s) { NothingWritten(s); }
    } else {
      var before := records[..|records| - 1];
      var last := records[|records| - 1];
      SavedMembers(before);
      forall s | s in Saved(before) ensures s.id != Written(last).id { WrittenElsewhere(records, s); }
      InsertMembers(Saved(before), Written(last));
      forall s ensures WrittenOf(records, s) <==> WrittenOf(before, s) || s == Written(last) {
        WrittenSplit(records, s);
      }
    }
  }

  lemma NothingWritten(s: LocalRecord)
    ensures !WrittenOf([], s)
  {
  }

  lemma WrittenElsewhere(records: seq<LocalRecord>, s: LocalRecord)
    requires records != [] && Unique(records) && WrittenOf(records[..|records| - 1], s)
    ensures s.id != Written(records[|records| - 1]).id
  {
    hide Written;
    var before := records[..|records| - 1];
    var i :| 0 <= i < |before| && s == Written(before[i]);
    assert before[i] == records[i];
    WrittenKeepsId(records[i]);
    WrittenKeepsId(records[|records| - 1]);
  }

  lemma WrittenSplit(records: seq<LocalRecord>, s: LocalRecord)
    requires records != []
    ensures WrittenOf(records, s) <==> WrittenOf(records[..|records| - 1], s) || s == Written(records[|records| - 1])
  {
    hide Written;
    var before := records[..|records| - 1];
    assert forall i :: 0 <= i < |before| ==> before[i] == records[i];
  }

  lemma WrittenKeepsId(r: LocalRecord)
    ensures Written(r).id == r.id
  {
  }

  predicate SortedByTime(records: seq<LocalRecord>)
  {
    forall i, j :: 0 <= i < j < |records| ==> records[i].createdAt <= records[j].createdAt
  }

  /** Saving sorts by creation time. */
  lemma {:induction false} SavedSorted(records: seq<LocalRecord>)
    ensures SortedByTime(Saved(records))
  {
    hide Written, InsertByTime;
    if records != [] {
      SavedSorted(records[..|records| - 1]);
      InsertSorted(Saved(records[..|records| - 1]), Written(records[|records| - 1]));
    }
  }

  lemma {:induction false} InsertSorted(sorted: seq<LocalRecord>, r: LocalRecord)
    requires SortedByTime(sorted)
    ensures SortedByTime(InsertByTime(sorted, r))
    ensures forall s :: s in InsertByTime(sorted, r) ==> s == r || s in sorted
  {
    if sorted != [] && sorted[|sorted| - 1].createdAt > r.createdAt {
      var before := sorted[..|sorted| - 1];
      var last := sorted[|sorted| - 1];
      InsertSorted(before, r);
      var t := InsertByTime(before, r);
      forall i | 0 <= i < |t| ensures t[i].createdAt <= last.createdAt {
        assert t[i] in t;
        if t[i] != r {
          var k :| 0 <= k < |before| && before[k] == t[i];
          assert sorted[k] == t[i];
        }
      }
      assert forall s :: s in before ==> s in sorted;
    }
  }

  /** The records of one instant, in order. */
  function AtTime(records: seq<LocalRecord>, t: int): seq<LocalRecord>
  {
    if records == [] then []
    else
      AtTime(records[..|records| - 1], t)
      + (if records[|records| - 1].createdAt == t then [records[|records| - 1]] else [])
  }

  function AllWritten(records: seq<LocalRecord>): seq<LocalRecord>
  {
    if records == [] then [] else AllWritten(records[..|records| - 1]) + [Written(records[|records| - 1])]
  }

  /** Saving keeps the order of records that were created at the same time. */
  lemma {:induction false} SavedStable(records: seq<LocalRecord>, t: int)
    ensures AtTime(Saved(records), t) == AllWritten(AtTime(records, t))
  {
    hide Written, InsertByTime;
    if records != [] {
      var before := records[..|records| - 1];
      var last := records[|records| - 1];
      SavedStable(before, t);
      SavedSorted(before);
      InsertAtTime(Saved(before), Written(last), t);
      WrittenKeepsTime(last);
      var at := AtTime(before, t);
      assert (at + [last])[..|at|] == at && at + [] == at;
      assert AllWritten(at) + [] == AllWritten(at);
      assert AllWritten(at + [last]) == AllWritten(at) + [Written(last)];
      assert AtTime(Saved(before), t) + [] == AtTime(Saved(before), t);
    }
  }

  lemma WrittenKeepsTime(r: LocalRecord)
    ensures Written(r).createdAt == r.createdAt
  {
  }

  lemma {:induction false} InsertAtTime(sorted: seq<LocalRecord>, r: LocalRecord, t: int)
    requires SortedByTime(sorted)
    ensures AtTime(InsertByTime(sorted, r), t) == AtTime(sorted, t) + (if r.createdAt == t then [r] else [])
  {
    if sorted == [] || sorted[|sorted| - 1].createdAt <= r.createdAt {
      assert (sorted + [r])[..|sorted|] == sorted;
    } else {
      var before := sorted[..|sorted| - 1];
      var last := sorted[|sorted| - 1];
      InsertAtTime(before, r, t);
      var inserted := InsertByTime(before, r);
      assert (inserted + [last])[..|inserted|] == inserted;
      if r.createdAt == t { assert last.createdAt != t; }
    }
  }

  /** Editing loaded record k and saving carries the whole file on. */
  lemma EditCarries(file: seq<LocalRecord>, records: seq<LocalRecord>, k: nat, updated: LocalRecord)
    requires Sound(file) && Sound(records) && |records| == |file| && k < |file|
    requires forall i :: 0 <= i < |file| ==> Rebuilt(file[i], records[i])
    requires Targeted(records) && Continues(records[k], updated) && Stored(updated)
    ensures Sound(Saved(records[k := updated])) && Follows(file, Saved(records[k := updated]))
    ensures Targeted(Saved(records[k := updated]))
  {
    hide Written, Saved, Stored, Continues, Rebuilt;
    var edited := records[k := updated];
    ContinuesKeepsId(records[k], updated);
    assert records[k] in records && Targeted(edited);
    assert Unique(edited);
    SaveCarries(edited);
    forall r | r in file ensures Carried(r, Saved(edited)) {
      var i :| 0 <= i < |file| && file[i] == r;
      RebuiltFacts(file[i], records[i]);
      if i == k { RebuiltThen(file[k], records[k], updated); }
      ContinuesWritten(r, edited[i]);
      assert Written(edited[i]) in Saved(edited);
    }
  }

  lemma ContinuesKeepsId(r: LocalRecord, s: LocalRecord)
    requires Continues(r, s)
    ensures r.id == s.id && r.action == s.action
  {
  }

  lemma RebuiltThen(r: LocalRecord, s: LocalRecord, t: LocalRecord)
    requires Rebuilt(r, s) && Continues(s, t)
    ensures Continues(r, t)
  {
    hide Stored;
  }

  lemma ContinuesWritten(r: LocalRecord, s: LocalRecord)
    requires Continues(r, s)
    ensures Continues(r, Written(s))
  {
  }

  lemma SaveCarries(records: seq<LocalRecord>)
    requires Sound(records)
    ensures Sound(Saved(records)) && forall i :: 0 <= i < |records| ==> Written(records[i]) in Saved(records)
    ensures Targeted(Saved(records)) <==> Targeted(records)
  {
    hide Written, Saved, Stored, Rebuilt;
    SavedMembers(records);
    assert forall i :: 0 <= i < |records| ==> WrittenOf(records, Written(records[i]));
    forall i | 0 <= i < |records|
      ensures Stored(Written(records[i])) && Written(records[i]).action == records[i].action
    {
      WrittenRebuilds(records[i]);
      RebuiltFacts(records[i], Written(records[i]));
      assert records[i] in records;
    }
    forall s | s in Saved(records) ensures exists i :: 0 <= i < |records| && s == Written(records[i]) {
      assert WrittenOf(records, s);
    }
    if Targeted(Saved(records)) {
      forall r | r in records ensures r.action.target != "" {
        var i :| 0 <= i < |records| && records[i] == r;
        assert Written(records[i]) in Saved(records);
      }
    }
  }

  lemma EnqueueCarries(file: seq<LocalRecord>, records: seq<LocalRecord>, queued: LocalRecord)
    requires Sound(file) && Sound(records) && |records| == |file|
    requires forall i :: 0 <= i < |file| ==> Rebuilt(file[i], records[i])
    requires Targeted(records) && Stored(queued) && forall r :: r in records ==> r.id != queued.id
    ensures Sound(Saved(records + [queued])) && Follows(file, Saved(records + [queued]))
    ensures Targeted(Saved(records + [queued])) <==> queued.action.target != ""
  {
    hide Written, Saved, Stored, Continues, Rebuilt;
    var longer := records + [queued];
    assert forall i :: 0 <= i < |records| ==> records[i] in records;
    SaveCarries(longer);
    forall r | r in file ensures Carried(r, Saved(longer)) {
      var i :| 0 <= i < |file| && file[i] == r;
      RebuiltFacts(file[i], records[i]);
      ContinuesWritten(r, longer[i]);
      assert Written(longer[i]) in Saved(longer);
    }
  }

  lemma SelfFollows(file: seq<LocalRecord>)
    ensures Follows(file, file)
  {
    forall r | r in file ensures Carried(r, file) { assert Continues(r, r); }
  }

  lemma DecideContinues(env: Env, r: LocalRecord, c: Command, now: int, nonce: string)
    requires Storable(r) && (c.ApproveCommand? || c.DenyCommand? || c.ExpireCommand?)
    ensures var s := Decide(env, r, c, now, nonce); s.Ok? ==> Continues(r, s.value) && Storable(s.value)
  {
    hide Approve, Deny, Expire, Storable, Continues;
    match c
    case ApproveCommand(_, operator, scope, reason) => ApproveContinues(env, r, operator, scope, reason, now, nonce);
    case DenyCommand(_, operator, reason) => DenyContinues(env, r, operator, reason, now, nonce);
    case ExpireCommand(_, operator, reason) => ExpireContinues(env, r, operator, reason, now, nonce);
  }

  lemma QueuedStored(env: Env, r: LocalRecord)
    requires FromMcpResult(env, r).Ok?
    ensures var queued := FromMcpResult(env, r).value;
      Stored(queued) && queued.id == r.id && queued.action == r.action
  {
    hide BLOCKED, Unapprovable;
  }

  /** Enqueueing adds a record without a target. */
  predicate Freezes(file: seq<LocalRecord>, c: Command)
  {
    && c.Enqueue? && c.record.action.target == "" && Queueable(c.record)
    && Targeted(file) && IndexOf(file, c.record.id) < 0
  }

  /** The loaded records have the ids and targets of the file. */
  lemma SameIds(file: seq<LocalRecord>, records: seq<LocalRecord>, id: string)
    requires |records| == |file| && forall i :: 0 <= i < |file| ==> Rebuilt(file[i], records[i])
    ensures IndexOf(records, id) < 0 <==> IndexOf(file, id) < 0
    ensures Targeted(file) ==> Targeted(records)
  {
    hide Rebuilt, IndexOf;
    forall i | 0 <= i < |file| ensures records[i].id == file[i].id && records[i].action == file[i].action {
      RebuiltFacts(file[i], records[i]);
    }
    var i, j := IndexOf(records, id), IndexOf(file, id);
    if i >= 0 { assert file[i] in file && file[i].id == id; }
    if j >= 0 { assert records[j] in records && records[j].id == id; }
    if Targeted(file) {
      forall r | r in records ensures r.action.target != "" {
        var k :| 0 <= k < |records| && records[k] == r;
        assert file[k] in file;
      }
    }
  }

  /** One command on a sound file: it stays sound, every record in it goes on along the graph, and it can be read
      again exactly when the command did not add a record without a target. */
  lemma CommandCarries(env: Env, file: seq<LocalRecord>, c: Command, clock: Readings, nonce: string)
    requires Sound(file)
    ensures var next := RunCommand(env, file, c, clock, nonce);
      && (next.Ok? ==>
            && Targeted(file) && Sound(next.value) && Follows(file, next.value)
            && (Targeted(next.value) <==> !Freezes(file, c)))
      && (Freezes(file, c) ==> next.Ok?)
  {
    hide Sound, Targeted, Follows, Freezes, RunCommand;
    if Targeted(file) {
      if c.Enqueue? {
        EnqueueCommand(env, file, c, clock, nonce);
      } else {
        EditCommand(env, file, c, clock, nonce);
        EditNeverFreezes(file, c);
      }
    } else {
      UntargetedStops(env, file);
      StoppedErrs(env, file, c, clock, nonce);
    }
  }

  lemma EditNeverFreezes(file: seq<LocalRecord>, c: Command)
    requires !c.Enqueue?
    ensures !Freezes(file, c)
  {
  }

  /** An unreadable file makes every command fail. */
  lemma StoppedErrs(env: Env, file: seq<LocalRecord>, c: Command, clock: Readings, nonce: string)
    requires LoadAll(env, file).Err?
    ensures RunCommand(env, file, c, clock, nonce).Err?
    ensures !Targeted(file) ==> !Freezes(file, c)
  {
    hide LoadAll, FromMcpResult;
  }

  lemma EnqueueCommand(env: Env, file: seq<LocalRecord>, c: Command, clock: Readings, nonce: string)
    requires Sound(file) && Targeted(file) && c.Enqueue?
    ensures var next := RunCommand(env, file, c, clock, nonce);
      && (next.Ok? ==>
            Sound(next.value) && Follows(file, next.value) && (Targeted(next.value) <==> !Freezes(file, c)))
      && (Freezes(file, c) ==> next.Ok?)
  {
    hide Sound, Targeted, Follows, Rebuilt, Saved, LoadAll, Queueable, Construct, Undecided;
    LoadRebuilds(env, file);
    SelfFollows(file);
    var records := LoadAll(env, file).value;
    SameIds(file, records, c.record.id);
    if FromMcpResult(env, c.record).Ok? {
      QueuedStored(env, c.record);
      if IndexOf(records, c.record.id) < 0 {
        EnqueueCarries(file, records, FromMcpResult(env, c.record).value);
      }
    }
  }

  lemma LoadedStorable(records: seq<LocalRecord>, i: nat)
    requires Sound(records) && Targeted(records) && i < |records|
    ensures Storable(records[i])
  {
    hide Stored, Storable;
    assert records[i] in records;
    StoredComplete(records[i]);
  }

  /** Writing back one record that has gone on. */
  lemma EditSound(env: Env, file: seq<LocalRecord>, i: nat, updated: LocalRecord)
    requires Sound(file) && Targeted(file) && LoadAll(env, file).Ok? && i < |LoadAll(env, file).value|
    requires Continues(LoadAll(env, file).value[i], updated) && Storable(updated)
    ensures var next := Saved(LoadAll(env, file).value[i := updated]);
      Sound(next) && Follows(file, next) && Targeted(next)
  {
    hide Sound, Targeted, LoadAll, Saved, Follows, Continues, Storable, Rebuilt;
    LoadRebuilds(env, file);
    SameIds(file, LoadAll(env, file).value, "");
    StorableStored(updated);
    EditCarries(file, LoadAll(env, file).value, i, updated);
  }

  lemma ConsumeCommand(env: Env, file: seq<LocalRecord>, i: nat, now: int)
    requires Sound(file) && Targeted(file) && LoadAll(env, file).Ok? && i < |LoadAll(env, file).value|
    ensures var updated := Consume(env, LoadAll(env, file).value[i], now);
      updated.Ok? ==>
        var next := Saved(LoadAll(env, file).value[i := updated.value]);
        Sound(next) && Follows(file, next) && Targeted(next)
  {
    hide Sound, Targeted, LoadAll, Saved, Follows, Continues, Storable, Rebuilt, Consume;
    var records := LoadAll(env, file).value;
    LoadRebuilds(env, file);
    SameIds(file, records, "");
    LoadedStorable(records, i);
    ConsumeContinues(env, records[i], now);
    var updated := Consume(env, records[i], now);
    if updated.Ok? { EditSound(env, file, i, updated.value); }
  }

  lemma DecideCommand(env: Env, file: seq<LocalRecord>, i: nat, c: Command, now: int, nonce: string)
    requires Sound(file) && Targeted(file) && LoadAll(env, file).Ok? && i < |LoadAll(env, file).value|
    requires c.ApproveCommand? || c.DenyCommand? || c.ExpireCommand?
    ensures var updated := Decide(env, LoadAll(env, file).value[i], c, now, nonce);
      updated.Ok? ==>
        var next := Saved(LoadAll(env, file).value[i := updated.value]);
        Sound(next) && Follows(file, next) && Targeted(next)
  {
    hide Sound, Targeted, LoadAll, Saved, Follows, Continues, Storable, Rebuilt, Decide;
    var records := LoadAll(env, file).value;
    LoadRebuilds(env, file);
    SameIds(file, records, "");
    LoadedStorable(records, i);
    DecideContinues(env, records[i], c, now, nonce);
    var updated := Decide(env, records[i], c, now, nonce);
    if updated.Ok? { EditSound(env, file, i, updated.value); }
  }

  lemma EditCommand(env: Env, file: seq<LocalRecord>, c: Command, clock: Readings, nonce: string)
    requires Sound(file) && Targeted(file) && !c.Enqueue?
    ensures var next := RunCommand(env, file, c, clock, nonce);
      next.Ok? ==> Sound(next.value) && Follows(file, next.value) && Targeted(next.value)
  {
    hide Sound, Targeted, LoadAll, Saved, Follows, Decide, Consume, MatchesAction, IndexOf, FirstMatch;
    LoadRebuilds(env, file);
    SelfFollows(file);
    var records := LoadAll(env, file).value;
    if c.ConsumeMatching? {
      var i := FirstMatch(records, c.action, clock);
      if i >= 0 { ConsumeCommand(env, file, i, clock(i + 1)); }
    } else {
      var i := IndexOf(records, c.id);
      if i >= 0 { DecideCommand(env, file, i, c, clock(0), nonce); }
    }
  }

  // ------------------------------------------------------------ main results

  /** A command, what it reads from the clock, and the fresh id it may use. */
  datatype Timed = Timed(command: Command, clock: Readings, nonce: string)

  function FileAfter(env: Env, commands: seq<Timed>): seq<LocalRecord>
  {
    if commands == [] then []
    else
      var file := FileAfter(env, commands[..|commands| - 1]);
      var last := commands[|commands| - 1];
      match RunCommand(env, file, last.command, last.clock, last.nonce)
      case Ok(next) => next
      case Err(_) => file
  }

  /** A command of the run added a record without a target. */
  ghost predicate FreezesAt(env: Env, commands: seq<Timed>, k: nat)
    requires k < |commands|
  {
    Freezes(FileAfter(env, commands[..k]), commands[k].command)
  }

  /**
   Every file of every run is sound: ids are unique, and no approved record has a blocked capability or lacks its
   operator. Each command carries every record on along the status graph. The file can be read back exactly when
   no command of the run has added a record without a target.
   */
  lemma {:induction false} QueueRunSound(env: Env, commands: seq<Timed>)
    ensures Sound(FileAfter(env, commands))
    ensures LoadAll(env, FileAfter(env, commands)).Ok?
       <==> forall k :: 0 <= k < |commands| ==> !FreezesAt(env, commands, k)
    ensures commands != [] ==> Follows(FileAfter(env, commands[..|commands| - 1]), FileAfter(env, commands))
  {
    hide RunCommand, Sound, Follows, Freezes, LoadAll;
    if commands == [] {
      EmptySound();
    } else {
      var before := commands[..|commands| - 1];
      var file := FileAfter(env, before);
      var last := commands[|commands| - 1];
      QueueRunSound(env, before);
      CommandCarries(env, file, last.command, last.clock, last.nonce);
      SelfFollows(file);
      LoadsExactly(env, file);
      forall k | 0 <= k < |before| ensures FreezesAt(env, before, k) <==> FreezesAt(env, commands, k) {
        assert before[..k] == commands[..k];
      }
      assert FreezesAt(env, commands, |before|) <==> Freezes(file, last.command);
    }
    LoadsExactly(env, FileAfter(env, commands));
  }

  /** A result with an empty target is queued, and from then on every command fails. */
  lemma EmptyTargetFreezes(env: Env, file: seq<LocalRecord>, r: LocalRecord, clock: Readings, nonce: string,
                           c: Command, later: Readings, other: string)
    requires Sound(file) && Freezes(file, Enqueue(r))
    ensures var next := RunCommand(env, file, Enqueue(r), clock, nonce);
      && next.Ok? && next.value != file && LoadAll(env, next.value).Err?
      && RunCommand(env, next.value, c, later, other).Err?
  {
    hide RunCommand, Sound, Follows, Freezes, LoadAll;
    CommandCarries(env, file, Enqueue(r), clock, nonce);
    var next := RunCommand(env, file, Enqueue(r), clock, nonce).value;
    UntargetedStops(env, next);
    StoppedErrs(env, next, c, later, other);
  }

  /** An unreadable file stays as it is for the rest of the run. */
  lemma {:induction false} FrozenForever(env: Env, commands: seq<Timed>, n: nat)
    requires n <= |commands| && LoadAll(env, FileAfter(env, commands[..n])).Err?
    ensures FileAfter(env, commands) == FileAfter(env, commands[..n])
    decreases |commands|
  {
    hide RunCommand, LoadAll;
    if n == |commands| {
      assert commands[..n] == commands;
    } else {
      var before := commands[..|commands| - 1];
      var last := commands[|commands| - 1];
      assert before[..n] == commands[..n];
      FrozenForever(env, before, n);
      StoppedErrs(env, FileAfter(env, before), last.command, last.clock, last.nonce);
    }
  }

  /** An approval for an empty target, complete otherwise. */
  const UNTARGETED: LocalRecord :=
    LocalRecord("approval-1", Pending, 0, 900, Binding("power.on", "session-1", "", "mock", "f0"), "ask_each_time",
                "agent requests power.on", [], map[], None, None, None, None, None, None, {})

  /** The first command of a queue can freeze it. */
  lemma FirstCommandFreezes(env: Env, clock: Readings, nonce: string)
    ensures LoadAll(env, FileAfter(env, [Timed(Enqueue(UNTARGETED), clock, nonce)])).Err?
  {
    hide RunCommand, LoadAll;
    var commands := [Timed(Enqueue(UNTARGETED), clock, nonce)];
    assert commands[..0] == [];
    assert FreezesAt(env, commands, 0);
    QueueRunSound(env, commands);
  }

  lemma EmptySound()
    ensures Sound([])
  {
  }

  predicate Final(s: Status)
  {
    s == Denied || s == Expired || s == Consumed
  }

  /** The statuses a record may come to have. */
  predicate Reaches(a: Status, b: Status)
  {
    a == b || a == Pending || (a == Approved && (b == Expired || b == Consumed))
  }

  /** What became of a record: the same approval of the same action, further along the status graph. */
  predicate Outlives(r: LocalRecord, s: LocalRecord)
  {
    && s.id == r.id && s.action == r.action && s.createdAt == r.createdAt && s.expiresAt == r.expiresAt
    && s.decision == r.decision && s.risks == r.risks && Reaches(r.status, s.status)
  }

  ghost predicate Survives(r: LocalRecord, file: seq<LocalRecord>)
  {
    exists s :: s in file && Outlives(r, s)
  }

  lemma OutlivesThen(r: LocalRecord, s: LocalRecord, t: LocalRecord)
    requires Outlives(r, s) && Continues(s, t)
    ensures Outlives(r, t)
  {
  }

  /** Every record of every file is there at the end of the run, with its id and binding, in a status it can reach. */
  lemma {:induction false} RecordsSurvive(env: Env, commands: seq<Timed>, n: nat, r: LocalRecord)
    requires n <= |commands| && r in FileAfter(env, commands[..n])
    ensures Survives(r, FileAfter(env, commands))
    decreases |commands|
  {
    hide FileAfter;
    if n == |commands| {
      assert commands[..n] == commands;
      assert Outlives(r, r);
    } else {
      var before := commands[..|commands| - 1];
      assert before[..n] == commands[..n];
      RecordsSurvive(env, before, n, r);
      QueueRunSound(env, commands);
      var s :| s in FileAfter(env, before) && Outlives(r, s);
      assert Carried(s, FileAfter(env, commands));
      var t :| t in FileAfter(env, commands) && Continues(s, t);
      OutlivesThen(r, s, t);
    }
  }

  /** A denied, expired or consumed record keeps its status, id and binding for the rest of the run. */
  lemma FinalStaysFinal(env: Env, commands: seq<Timed>, n: nat, r: LocalRecord)
    requires n <= |commands| && r in FileAfter(env, commands[..n]) && Final(r.status)
    ensures exists s :: s in FileAfter(env, commands) && s.id == r.id && s.status == r.status && s.action == r.action
  {
    hide FileAfter;
    RecordsSurvive(env, commands, n, r);
    var s :| s in FileAfter(env, commands) && Outlives(r, s);
    assert s.status == r.status;
  }
}
