/**
 What each command of the queue does to its record, and how every record of a run came by its status.
 */
module ApprovalQueueDecisions {
  import opened Wrappers
  import opened Approvals
  import opened ApprovalQueue
  import opened ApprovalQueueRuns

  /** The same record, redacted once more. */
  predicate Alike(r: LocalRecord, s: LocalRecord)
  {
    s == r.(request := s.request, redactions := s.redactions, message := s.message, reason := s.reason)
  }

  lemma AlikeThen(r: LocalRecord, s: LocalRecord, t: LocalRecord)
    requires Alike(r, s) && Alike(s, t)
    ensures Alike(r, t)
  {
  }

  lemma RebuiltAlike(r: LocalRecord, s: LocalRecord)
    requires Rebuilt(r, s)
    ensures Alike(r, s)
  {
    hide Stored;
  }

  // ------------------------------------------------------------ one command

  /** The command can be carried out on the record. */
  predicate Allowed(c: Command, r: LocalRecord, now: int)
  {
    match c
    case ApproveCommand(_, operator, _, _) =>
      r.status == Pending && (now >= r.expiresAt || (operator != "" && !Unapprovable(r.action.capability)))
    case DenyCommand(_, _, _) => r.status == Pending
    case ExpireCommand(_, _, _) => r.status == Pending || r.status == Approved
    case _ => false
  }

  /** What the command makes of the record: the decision, by whom and when; id, action and times are as they were. */
  predicate Decides(c: Command, r: LocalRecord, now: int, s: LocalRecord)
  {
    && s.id == r.id && s.action == r.action && s.createdAt == r.createdAt && s.expiresAt == r.expiresAt
    && s.decidedAt == Some(now) && s.consumedAt == r.consumedAt
    && match c
       case ApproveCommand(_, operator, scope, _) =>
         && s.operator == Some(operator)
         && s.status == (if now < r.expiresAt then Approved else Expired)
         && s.scope == (if now < r.expiresAt then Some(scope) else r.scope)
       case DenyCommand(_, operator, _) => s.status == Denied && s.operator == Some(operator) && s.scope == r.scope
       case ExpireCommand(_, operator, _) => s.status == Expired && s.operator == Some(operator) && s.scope == r.scope
       case _ => false
  }

  lemma DecideExactly(env: Env, r: LocalRecord, c: Command, now: int, nonce: string)
    requires Complete(r) && (c.ApproveCommand? || c.DenyCommand? || c.ExpireCommand?)
    ensures var s := Decide(env, r, c, now, nonce);
      && (s.Ok? <==> Allowed(c, r, now))
      && (s.Ok? ==> Decides(c, r, now, s.value))
  {
    hide Approve, Deny, Expire, Shown, Unapprovable, LocalResponse, Because;
    match c
    case ApproveCommand(_, operator, scope, reason) => ApproveExactly(env, r, operator, scope, reason, now, nonce);
    case DenyCommand(_, operator, reason) => DenyExactly(env, r, operator, reason, now, nonce);
    case ExpireCommand(_, operator, reason) => ExpireExactly(env, r, operator, reason, now, nonce);
  }

  /** The record with this id. */
  predicate HasRecord(file: seq<LocalRecord>, r: LocalRecord, id: string)
  {
    r in file && r.id == id
  }

  lemma FoundAt(file: seq<LocalRecord>, records: seq<LocalRecord>, r: LocalRecord, id: string)
    requires Sound(file) && |records| == |file| && forall i :: 0 <= i < |file| ==> Rebuilt(file[i], records[i])
    requires HasRecord(file, r, id)
    ensures var i := IndexOf(records, id); i >= 0 && file[i] == r && Alike(r, records[i])
  {
    hide Rebuilt, Stored;
    var k :| 0 <= k < |file| && file[k] == r;
    RebuiltFacts(file[k], records[k]);
    assert records[k] in records;
    var i := IndexOf(records, id);
    RebuiltFacts(file[i], records[i]);
    assert i == k;
    RebuiltAlike(file[i], records[i]);
  }

  /** Every other record is there as it was, and none is new. */
  ghost predicate OthersStay(file: seq<LocalRecord>, next: seq<LocalRecord>, id: string)
  {
    && (forall t :: t in file && t.id != id ==> exists s :: s in next && Alike(t, s))
    && (forall s :: s in next && s.id != id ==> exists t :: t in file && Alike(t, s))
  }

  /** After an edit at k: the edited record as written, and every other record as it was. */
  lemma EditedMembers(file: seq<LocalRecord>, records: seq<LocalRecord>, k: nat, updated: LocalRecord)
    requires Sound(file) && Sound(records) && |records| == |file| && k < |file| && updated.id == records[k].id
    requires forall i :: 0 <= i < |file| ==> Rebuilt(file[i], records[i])
    ensures var next := Saved(records[k := updated]);
      && (forall s :: s in next && s.id == updated.id ==> Alike(updated, s))
      && Written(updated) in next && OthersStay(file, next, updated.id)
  {
    hide Rebuilt, Stored, Saved, Written, Alike, WrittenOf;
    var edited := records[k := updated];
    assert Unique(edited);
    SavedMembers(edited);
    WrittenAlike(edited[k]);
    WrittenAt(edited, k);
    forall s | s in Saved(edited)
      ensures if s.id == updated.id then Alike(updated, s) else exists t :: t in file && Alike(t, s)
    {
      EditedCame(file, records, k, updated, s);
    }
    forall t | t in file && t.id != updated.id ensures exists s :: s in Saved(edited) && Alike(t, s) {
      var i :| 0 <= i < |file| && file[i] == t;
      EditedStays(file, records, k, updated, i);
      WrittenAt(edited, i);
    }
  }

  lemma WrittenAt(records: seq<LocalRecord>, i: nat)
    requires i < |records|
    ensures WrittenOf(records, Written(records[i]))
  {
    hide Written;
  }

  lemma EditedCame(file: seq<LocalRecord>, records: seq<LocalRecord>, k: nat, updated: LocalRecord, s: LocalRecord)
    requires |records| == |file| && k < |file| && updated.id == records[k].id && Unique(records)
    requires forall i :: 0 <= i < |file| ==> Rebuilt(file[i], records[i])
    requires WrittenOf(records[k := updated], s)
    ensures if s.id == updated.id then Alike(updated, s) else exists t :: t in file && Alike(t, s)
  {
    hide Rebuilt, Written, Alike;
    var edited := records[k := updated];
    var i :| 0 <= i < |edited| && s == Written(edited[i]);
    WrittenAlike(edited[i]);
    AlikeIds(edited[i], s);
    if i != k {
      EditedStays(file, records, k, updated, i);
      assert file[i] in file && edited[i] == records[i];
    }
  }

  lemma EditedStays(file: seq<LocalRecord>, records: seq<LocalRecord>, k: nat, updated: LocalRecord, i: nat)
    requires |records| == |file| && k < |file| && i < |file| && updated.id == records[k].id && Unique(records)
    requires Rebuilt(file[i], records[i])
    ensures i != k ==> records[i].id != updated.id
    ensures file[i].id == records[i].id && Alike(file[i], Written(records[i]))
  {
    hide Rebuilt, Written, Alike;
    RebuiltAlike(file[i], records[i]);
    AlikeIds(file[i], records[i]);
    WrittenAlike(records[i]);
    AlikeThen(file[i], records[i], Written(records[i]));
  }

  lemma AlikeIds(r: LocalRecord, s: LocalRecord)
    requires Alike(r, s)
    ensures r.id == s.id
  {
  }

  lemma WrittenAlike(r: LocalRecord)
    ensures Alike(r, Written(r))
  {
  }

  /**
   One decision on a readable file that holds the record: it is carried out exactly when it is allowed, and then decides
   this record as the command says, and leaves every other record as it was.
   */
  lemma CommandDecides(env: Env, file: seq<LocalRecord>, r: LocalRecord, c: Command, clock: Readings, nonce: string)
    requires Sound(file) && Targeted(file) && (c.ApproveCommand? || c.DenyCommand? || c.ExpireCommand?)
    requires HasRecord(file, r, c.id)
    ensures var next := RunCommand(env, file, c, clock, nonce);
      && (next.Ok? <==> Allowed(c, r, clock(0)))
      && (next.Ok? ==>
            && (exists s :: s in next.value && Decides(c, r, clock(0), s))
            && (forall s :: s in next.value && s.id == c.id ==> Decides(c, r, clock(0), s))
            && OthersStay(file, next.value, c.id))
  {
    hide LoadAll, Saved, Rebuilt, Stored, Storable, Decide, Decides, Written, IndexOf, Unapprovable;
    LoadRebuilds(env, file);
    var records := LoadAll(env, file).value;
    FoundAt(file, records, r, c.id);
    var i := IndexOf(records, c.id);
    RecordComplete(file, records, i);
    DecideExactly(env, records[i], c, clock(0), nonce);
    AlikeAllowed(c, r, records[i], clock(0));
    var updated := Decide(env, records[i], c, clock(0), nonce);
    if updated.Ok? {
      DecidesAlike(c, r, records[i], clock(0), updated.value, updated.value);
      EditedMembers(file, records, i, updated.value);
      DecidesAlike(c, r, records[i], clock(0), updated.value, Written(updated.value));
      forall s | s in Saved(records[i := updated.value]) && s.id == c.id ensures Decides(c, r, clock(0), s) {
        DecidesAlike(c, r, records[i], clock(0), updated.value, s);
      }
    }
  }

  lemma RecordComplete(file: seq<LocalRecord>, records: seq<LocalRecord>, i: nat)
    requires Sound(file) && Targeted(file) && Sound(records) && |records| == |file| && i < |file|
    requires forall j :: 0 <= j < |file| ==> Rebuilt(file[j], records[j])
    ensures Complete(records[i])
  {
    hide Rebuilt;
    RebuiltFacts(file[i], records[i]);
    assert records[i] in records && file[i] in file;
  }

  lemma AlikeAllowed(c: Command, r: LocalRecord, s: LocalRecord, now: int)
    requires Alike(r, s)
    ensures Allowed(c, r, now) <==> Allowed(c, s, now)
  {
  }

  lemma DecidesAlike(c: Command, r: LocalRecord, loaded: LocalRecord, now: int, s: LocalRecord, t: LocalRecord)
    requires Alike(r, loaded) && Decides(c, loaded, now, s)
    ensures s.id == r.id && (Alike(s, t) || t == Written(s) ==> Decides(c, r, now, t))
  {
  }

  // ------------------------------------------------------------ consuming

  /** The record is an unexpired approval of this very action. */
  predicate Fits(r: LocalRecord, action: Binding, now: int)
  {
    && r.status == Approved && now < r.expiresAt
    && r.action.capability == action.capability && r.action.session == action.session
    && r.action.target == action.target && r.action.provider == action.provider
    && r.action.fingerprint == action.fingerprint
  }

  /** k is the first record that fits when it is looked at. */
  predicate FirstFit(file: seq<LocalRecord>, action: Binding, clock: Readings, k: nat)
  {
    k < |file| && Fits(file[k], action, clock(k)) && forall j :: 0 <= j < k ==> !Fits(file[j], action, clock(j))
  }

  lemma {:induction false} FirstMatchFits(records: seq<LocalRecord>, k: nat, action: Binding, clock: Readings)
    requires k <= |records| && forall j :: 0 <= j < k ==> !Fits(records[j], action, clock(j))
    ensures var i := FirstMatchFrom(records, k, action, clock);
      if i < 0 then forall j :: 0 <= j < |records| ==> !Fits(records[j], action, clock(j))
      else FirstFit(records, action, clock, i)
    decreases |records| - k
  {
    if k < |records| {
      assert MatchesAction(records[k], action, clock(k)) <==> Fits(records[k], action, clock(k));
      if !Fits(records[k], action, clock(k)) { FirstMatchFits(records, k + 1, action, clock); }
    }
  }

  /** The record, used up. */
  predicate UsedUp(r: LocalRecord, now: int, s: LocalRecord)
  {
    && s.id == r.id && s.action == r.action && s.status == Consumed && s.consumedAt == Some(now)
    && s.scope == r.scope && s.operator == r.operator && s.responseId == r.responseId && s.decidedAt == r.decidedAt
  }

  /**
   Consuming never fails on a readable file. It uses up the first approval that fits the action, leaves one for the
   session as it is, and leaves every other record as it was; without a fitting approval nothing happens.
   */
  lemma ConsumeDecides(env: Env, file: seq<LocalRecord>, action: Binding, clock: Readings, nonce: string)
    requires Sound(file) && Targeted(file)
    ensures var next := RunCommand(env, file, ConsumeMatching(action), clock, nonce);
      && next.Ok?
      && ((forall k :: 0 <= k < |file| ==> !Fits(file[k], action, clock(k))) ==> next.value == file)
      && (forall k: nat :: FirstFit(file, action, clock, k) ==>
            if file[k].scope == Some(PerSession) then next.value == file
            else
              && (exists s :: s in next.value && UsedUp(file[k], clock(k + 1), s))
              && (forall s :: s in next.value && s.id == file[k].id ==> UsedUp(file[k], clock(k + 1), s))
              && OthersStay(file, next.value, file[k].id))
  {
    hide LoadAll, Saved, Rebuilt, Stored, Storable, Consume, Written, Fits, Sound;
    LoadRebuilds(env, file);
    var records := LoadAll(env, file).value;
    forall k | 0 <= k < |file| ensures Fits(file[k], action, clock(k)) <==> Fits(records[k], action, clock(k)) {
      RebuiltAlike(file[k], records[k]);
      AlikeFits(file[k], records[k], action, clock(k));
    }
    FirstMatchFits(records, 0, action, clock);
    var i := FirstMatch(records, action, clock);
    if i >= 0 {
      assert FirstFit(file, action, clock, i);
      assert forall k: nat :: FirstFit(file, action, clock, k) ==> k == i;
      RebuiltAlike(file[i], records[i]);
      ConsumeAt(env, file, records, i, action, clock(i), clock(i + 1));
    }
  }

  lemma ConsumeAt(env: Env, file: seq<LocalRecord>, records: seq<LocalRecord>, i: nat, action: Binding, seen: int,
                  now: int)
    requires Sound(file) && Targeted(file) && Sound(records) && |records| == |file| && i < |file|
    requires forall j :: 0 <= j < |file| ==> Rebuilt(file[j], records[j])
    requires Fits(records[i], action, seen) && Alike(file[i], records[i])
    ensures Consume(env, records[i], now).Ok? && records[i].scope == file[i].scope
    ensures file[i].scope != Some(PerSession) ==>
      var next := Saved(records[i := Consume(env, records[i], now).value]);
      && (exists s :: s in next && UsedUp(file[i], now, s))
      && (forall s :: s in next && s.id == file[i].id ==> UsedUp(file[i], now, s))
      && OthersStay(file, next, file[i].id)
  {
    hide Rebuilt, Stored, Saved, Written, Consume;
    RecordComplete(file, records, i);
    ConsumeExactly(env, records[i], now);
    if file[i].scope != Some(PerSession) {
      var updated := Consume(env, records[i], now).value;
      EditedMembers(file, records, i, updated);
      WrittenAlike(updated);
    }
  }

  lemma AlikeFits(r: LocalRecord, s: LocalRecord, action: Binding, now: int)
    requires Alike(r, s)
    ensures Fits(r, action, now) <==> Fits(s, action, now)
  {
  }

  // ------------------------------------------------------------ over runs

  predicate Queued(c: Command, r: LocalRecord)
  {
    c.Enqueue? && c.record.id == r.id && c.record.action == r.action
  }

  predicate ApprovedBy(c: Command, r: LocalRecord)
  {
    c.ApproveCommand? && c.id == r.id && r.operator == Some(c.operator) && r.scope == Some(c.scope)
  }

  /** A command that can bring a record to its status, as the record tells it. */
  predicate Brings(c: Command, r: LocalRecord)
  {
    match r.status
    case Pending => Queued(c, r)
    case Approved => ApprovedBy(c, r)
    case Denied => c.DenyCommand? && c.id == r.id && r.operator == Some(c.operator)
    case Expired => (c.ExpireCommand? || c.ApproveCommand?) && c.id == r.id && r.operator == Some(c.operator)
    case Consumed => c.ConsumeMatching? && c.action == r.action
  }

  ghost predicate Explained(commands: seq<Timed>, r: LocalRecord)
  {
    && (exists k :: 0 <= k < |commands| && Brings(commands[k].command, r))
    && (r.status == Consumed ==> exists k :: 0 <= k < |commands| && ApprovedBy(commands[k].command, r))
  }

  lemma ExplainedLater(commands: seq<Timed>, c: Timed, r: LocalRecord, s: LocalRecord)
    requires Explained(commands, r) && Alike(r, s)
    ensures Explained(commands + [c], s)
  {
    hide Brings;
    var more := commands + [c];
    var k :| 0 <= k < |commands| && Brings(commands[k].command, r);
    AlikeBrings(commands[k].command, r, s);
    assert more[k] == commands[k];
    if r.status == Consumed {
      var j :| 0 <= j < |commands| && ApprovedBy(commands[j].command, r);
      assert more[j] == commands[j];
    }
  }

  lemma AlikeBrings(c: Command, r: LocalRecord, s: LocalRecord)
    requires Alike(r, s)
    ensures Brings(c, s) <==> Brings(c, r)
  {
  }

  lemma BroughtNow(commands: seq<Timed>, c: Timed, s: LocalRecord)
    requires Brings(c.command, s) && s.status != Consumed
    ensures Explained(commands + [c], s)
  {
    hide Brings;
    assert (commands + [c])[|commands|] == c;
  }

  lemma ConsumedNow(commands: seq<Timed>, c: Timed, r: LocalRecord, now: int, s: LocalRecord)
    requires Explained(commands, r) && r.status == Approved && UsedUp(r, now, s)
    requires c.command.ConsumeMatching? && c.command.action == r.action
    ensures Explained(commands + [c], s)
  {
    var more := commands + [c];
    assert more[|commands|] == c && Brings(c.command, s);
    var k :| 0 <= k < |commands| && Brings(commands[k].command, r);
    assert more[k] == commands[k] && ApprovedBy(commands[k].command, s);
  }

  lemma DecidesBrings(c: Command, r: LocalRecord, now: int, s: LocalRecord)
    requires Decides(c, r, now, s) && c.id == r.id
    ensures Brings(c, s) && s.status != Consumed
  {
  }

  /** Enqueueing adds at most the queued record. */
  lemma EnqueueAdds(env: Env, file: seq<LocalRecord>, r: LocalRecord, clock: Readings, nonce: string, s: LocalRecord)
    requires Sound(file) && Targeted(file)
    requires var next := RunCommand(env, file, Enqueue(r), clock, nonce); next.Ok? && s in next.value
    ensures (exists t :: t in file && Alike(t, s)) || (s.status == Pending && Queued(Enqueue(r), s))
  {
    hide LoadAll, Saved, Rebuilt, Stored, Written, FromMcpResult, IndexOf;
    LoadRebuilds(env, file);
    var records := LoadAll(env, file).value;
    if IndexOf(records, r.id) >= 0 {
      assert Alike(s, s);
    } else {
      QueuedExactly(env, r);
      var queued := FromMcpResult(env, r).value;
      var longer := records + [queued];
      assert forall i :: 0 <= i < |records| ==> records[i] in records;
      SavedMembers(longer);
      assert WrittenOf(longer, s);
      var i :| 0 <= i < |longer| && s == Written(longer[i]);
      WrittenAlike(longer[i]);
      if i < |records| {
        RebuiltAlike(file[i], records[i]);
        AlikeThen(file[i], records[i], s);
      }
    }
  }

  lemma ExplainedNext(env: Env, commands: seq<Timed>, file: seq<LocalRecord>, c: Timed, s: LocalRecord)
    requires Sound(file) && Targeted(file) && forall r :: r in file ==> Explained(commands, r)
    requires var next := RunCommand(env, file, c.command, c.clock, c.nonce); next.Ok? && s in next.value
    ensures Explained(commands + [c], s)
  {
    hide RunCommand, Sound, Targeted, Explained, Brings, Decides, Fits, Alike;
    var next := RunCommand(env, file, c.command, c.clock, c.nonce).value;
    match c.command {
      case Enqueue(r) =>
        EnqueueAdds(env, file, r, c.clock, c.nonce, s);
        if t :| t in file && Alike(t, s) {
          ExplainedLater(commands, c, t, s);
        } else {
          QueuedBrings(c.command, s);
          BroughtNow(commands, c, s);
        }
      case ConsumeMatching(action) =>
        ConsumeDecides(env, file, action, c.clock, c.nonce);
        ConsumeExplained(commands, file, c, next, s);
      case _ =>
        var r := DecidedRecord(env, file, c);
        CommandDecides(env, file, r, c.command, c.clock, c.nonce);
        if s.id == c.command.id {
          DecidesBrings(c.command, r, c.clock(0), s);
          BroughtNow(commands, c, s);
        } else {
          var t :| t in file && Alike(t, s);
          ExplainedLater(commands, c, t, s);
        }
    }
  }

  lemma QueuedBrings(c: Command, s: LocalRecord)
    requires s.status == Pending && Queued(c, s)
    ensures Brings(c, s)
  {
  }

  /** A decision that is carried out found its record. */
  lemma DecidedRecord(env: Env, file: seq<LocalRecord>, c: Timed) returns (r: LocalRecord)
    requires Sound(file) && Targeted(file)
    requires c.command.ApproveCommand? || c.command.DenyCommand? || c.command.ExpireCommand?
    requires RunCommand(env, file, c.command, c.clock, c.nonce).Ok?
    ensures HasRecord(file, r, c.command.id)
  {
    hide LoadAll, Saved, Rebuilt, Stored, Decide;
    LoadRebuilds(env, file);
    var records := LoadAll(env, file).value;
    var i := IndexOf(records, c.command.id);
    RebuiltFacts(file[i], records[i]);
    r := file[i];
  }

  lemma ConsumeExplained(commands: seq<Timed>, file: seq<LocalRecord>, c: Timed, next: seq<LocalRecord>, s: LocalRecord)
    requires c.command.ConsumeMatching? && s in next && forall r :: r in file ==> Explained(commands, r)
    requires (forall k :: 0 <= k < |file| ==> !Fits(file[k], c.command.action, c.clock(k))) ==> next == file
    requires forall k: nat :: FirstFit(file, c.command.action, c.clock, k) ==>
      if file[k].scope == Some(PerSession) then next == file
      else (forall t :: t in next && t.id == file[k].id ==> UsedUp(file[k], c.clock(k + 1), t))
           && OthersStay(file, next, file[k].id)
    ensures Explained(commands + [c], s)
  {
    hide Explained, Fits, Alike, UsedUp;
    if next == file {
      AlikeSelf(s);
      ExplainedLater(commands, c, s, s);
    } else {
      var k := FitFrom(file, c.command.action, c.clock, 0);
      var r := file[k];
      FitFacts(r, c.command.action, c.clock(k));
      if s.id == r.id {
        assert r in file;
        ConsumedNow(commands, c, r, c.clock(k + 1), s);
      } else {
        var t :| t in file && Alike(t, s);
        ExplainedLater(commands, c, t, s);
      }
    }
  }

  lemma AlikeSelf(s: LocalRecord)
    ensures Alike(s, s)
  {
  }

  lemma FitFacts(r: LocalRecord, action: Binding, now: int)
    requires Fits(r, action, now)
    ensures r.status == Approved && r.action == action
  {
  }

  /** If anything fits, something is the first to fit. */
  lemma {:induction false} FitFrom(file: seq<LocalRecord>, action: Binding, clock: Readings, j: nat) returns (k: nat)
    requires j <= |file| && forall i :: 0 <= i < j ==> !Fits(file[i], action, clock(i))
    requires exists i :: 0 <= i < |file| && Fits(file[i], action, clock(i))
    ensures FirstFit(file, action, clock, k)
    decreases |file| - j
  {
    hide Fits;
    if Fits(file[j], action, clock(j)) {
      k := j;
    } else {
      k := FitFrom(file, action, clock, j + 1);
    }
  }

  /**
   In every run, each record came by its status through commands of the run, and tells who gave them: an approved record
   was approved by its operator in its scope, a denied one denied by its operator, an expired one expired or approved
   too late, a consumed one approved and then consumed for its action, and a pending one queued for its action.
   */
  lemma {:induction false} StatusWasCommanded(env: Env, commands: seq<Timed>)
    ensures forall r :: r in FileAfter(env, commands) ==> Explained(commands, r)
  {
    hide RunCommand, Sound, Explained, Alike;
    if commands != [] {
      var before := commands[..|commands| - 1];
      var last := commands[|commands| - 1];
      assert commands == before + [last];
      StatusWasCommanded(env, before);
      QueueRunSound(env, before);
      var file := FileAfter(env, before);
      forall r | r in FileAfter(env, commands) ensures Explained(commands, r) {
        if RunCommand(env, file, last.command, last.clock, last.nonce).Ok? {
          CommandCarries(env, file, last.command, last.clock, last.nonce);
          ExplainedNext(env, before, file, last, r);
        } else {
          AlikeSelf(r);
          ExplainedLater(before, last, r, r);
        }
      }
    }
  }
}
