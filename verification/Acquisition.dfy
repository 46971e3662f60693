/** Ownership of a logical tool call: the idempotency record and the invocation it points to.

    Each transaction, and the single statement of Complete, is one atomic step. A failed
    transaction leaves the tables alone.
 */
module Acquisition {
  import opened Text
  import opened Bags

  /** A SHA-256 digest, identified with what was hashed. */
  datatype Digest = Digest(preimage: string)

  datatype Invocation = Invocation(
    id: Name, runID: Name, toolCallID: Name, toolID: Name, toolVersion: Name,
    argumentDigest: Digest, resourceDigest: Digest, state: Name)

  /** The tenant's record key: the run scopes the tool call. */
  datatype Slot = Slot(runID: Name, toolCallID: Name)

  /** What the request digest determines. */
  datatype Fingerprint = Fingerprint(toolID: Name, toolVersion: Name, argumentDigest: Digest)

  function SlotOf(i: Invocation): Slot {
    Slot(i.runID, i.toolCallID)
  }

  function FingerprintOf(i: Invocation): Fingerprint {
    Fingerprint(i.toolID, i.toolVersion, i.argumentDigest)
  }

  datatype Replay = Replay(statusCode: int, resultDigest: Digest, payload: JsonText)

  datatype Record = Record(
    fingerprint: Fingerprint, completed: bool, owner: Option<Name>, expiresAt: Option<Time>,
    recoveries: nat, maxRecoveries: nat, invocationID: Option<Name>, replay: Option<Replay>, createdAt: Time)

  datatype Tables = Tables(records: map<Slot, Record>, invocations: map<Name, Invocation>)

  datatype Request = Request(invocation: Invocation, owner: Name, now: Time, lease: Time, maxRecoveries: int)

  predicate ValidRequest(r: Request) {
    && r.owner.text != "" && r.invocation.runID.text != "" && r.invocation.toolCallID.text != ""
    && r.invocation.toolID.text != "" && r.invocation.toolVersion.text != ""
    && r.now != ZERO_TIME && 0 < r.lease <= 5 * MINUTE && 0 <= r.maxRecoveries <= 10
  }

  datatype Outcome =
    | Rejected
    | Failed
    | Owned(invocation: Invocation)
    | Recovered(invocation: Invocation)
    | Pending(invocation: Invocation)
    | Replayed(invocation: Invocation, replay: Option<Replay>)
    | Conflict(invocation: Invocation)
    | Exhausted(invocation: Invocation)
  {
    /** The outcomes that let the caller go on to execute. */
    predicate Granted() {
      Owned? || Recovered?
    }
  }

  /** The unique keys of the invocations table. */
  predicate CanCreate(t: Tables, i: Invocation) {
    i.id !in t.invocations && forall id :: id in t.invocations ==> SlotOf(t.invocations[id]) != SlotOf(i)
  }

  /** The upsert's WHERE clause. */
  predicate Recoverable(r: Record, f: Fingerprint, now: Time) {
    !r.completed && r.fingerprint == f && r.expiresAt.Some? && r.expiresAt.value <= now && r.recoveries < r.maxRecoveries
  }

  function FreshRecord(q: Request): Record
    requires ValidRequest(q)
  {
    Record(FingerprintOf(q.invocation), false, Some(q.owner), Some(q.now + q.lease), 0, q.maxRecoveries,
           Some(q.invocation.id), None, q.now)
  }

  function Reclaimed(r: Record, q: Request): Record {
    r.(owner := Some(q.owner), expiresAt := Some(q.now + q.lease), recoveries := r.recoveries + 1)
  }

  function Acquire(t: Tables, q: Request): (Tables, Outcome) {
    if !ValidRequest(q) then (t, Rejected)
    else
      var slot := SlotOf(q.invocation);
      if slot !in t.records then
        if !CanCreate(t, q.invocation) then (t, Failed)
        else (Tables(t.records[slot := FreshRecord(q)], t.invocations[q.invocation.id := q.invocation]),
              Owned(q.invocation))
      else
        var r := t.records[slot];
        if Recoverable(r, FingerprintOf(q.invocation), q.now) then
          if r.invocationID.None? || r.invocationID.value !in t.invocations || q.now < r.createdAt then (t, Failed)
          else (t.(records := t.records[slot := Reclaimed(r, q)]), Recovered(t.invocations[r.invocationID.value]))
        else (t, Classify(t, r, q))
  }

  /** Why the upsert refused. */
  function Classify(t: Tables, r: Record, q: Request): Outcome {
    if r.invocationID.None? || r.invocationID.value !in t.invocations then Failed
    else
      var i := t.invocations[r.invocationID.value];
      if r.fingerprint != FingerprintOf(q.invocation) || FingerprintOf(i) != FingerprintOf(q.invocation) then Conflict(i)
      else if r.completed then Replayed(i, r.replay)
      else if r.expiresAt.Some? && r.expiresAt.value <= q.now && r.recoveries >= r.maxRecoveries then Exhausted(i)
      else Pending(i)
  }

  datatype Completion = Completion(slot: Slot, owner: Name, replay: Replay, now: Time)

  predicate ValidCompletion(c: Completion) {
    && c.slot.runID.text != "" && c.slot.toolCallID.text != "" && c.owner.text != ""
    && 100 <= c.replay.statusCode <= 599 && !c.replay.payload.Absent? && c.now != ZERO_TIME
  }

  /** What the table itself refuses: times before the record's creation, payloads that are no
      object. */
  predicate Admits(r: Record, c: Completion) {
    r.createdAt <= c.now && c.replay.payload.JsonObject?
  }

  function Complete(t: Tables, c: Completion): (Tables, bool) {
    if !ValidCompletion(c) || c.slot !in t.records then (t, false)
    else
      var r := t.records[c.slot];
      if r.completed || r.owner != Some(c.owner) || !Admits(r, c) then (t, false)
      else (t.(records := t.records[c.slot := r.(completed := true, owner := None, expiresAt := None,
                                                 replay := Some(c.replay))]), true)
  }

  /** Other parts of the gateway move the invocation through its lifecycle. */
  function ChangeState(t: Tables, id: Name, state: Name): Tables {
    if id in t.invocations then t.(invocations := t.invocations[id := t.invocations[id].(state := state)]) else t
  }

  // ---------------------------------------------------------------- the tables in place

  class LogicalInvocationAcquirer {
    var records: map<Slot, Record>
    var invocations: map<Name, Invocation>

    function View(): Tables
      reads this
    {
      Tables(records, invocations)
    }

    /** Linking an owner to its invocation happens in the transaction that inserts both. */
    method TryAcquire(q: Request) returns (result: Outcome)
      modifies this
      ensures (View(), result) == Acquire(old(View()), q)
    {
      var i := q.invocation;
      if q.owner.text == "" || i.runID.text == "" || i.toolCallID.text == "" || i.toolID.text == ""
         || i.toolVersion.text == "" || q.now == ZERO_TIME || q.lease <= 0 || q.lease > 300_000_000_000
         || q.maxRecoveries < 0 || q.maxRecoveries > 10 {
        return Rejected;
      }
      var slot := Slot(i.runID, i.toolCallID);
      var digest := Fingerprint(i.toolID, i.toolVersion, i.argumentDigest);
      var expiresAt := q.now + q.lease;
      if slot !in records {
        if i.id in invocations || exists id :: id in invocations && SlotOf(invocations[id]) == slot {
          return Failed;
        }
        records := records[slot := Record(digest, false, Some(q.owner), Some(expiresAt), 0, q.maxRecoveries,
                                          None, None, q.now)];
        invocations := invocations[i.id := i];
        records := records[slot := records[slot].(invocationID := Some(i.id))];
        assert records == old(records)[slot := FreshRecord(q)];
        return Owned(i);
      }
      var r := records[slot];
      if !r.completed && r.fingerprint == digest && r.expiresAt.Some? && r.expiresAt.value <= q.now
         && r.recoveries < r.maxRecoveries {
        if r.invocationID.None? || r.invocationID.value !in invocations || q.now < r.createdAt {
          return Failed;
        }
        records := records[slot := Record(r.fingerprint, r.completed, Some(q.owner), Some(expiresAt), r.recoveries + 1,
                                          r.maxRecoveries, r.invocationID, r.replay, r.createdAt)];
        return Recovered(invocations[r.invocationID.value]);
      }
      result := ClassifyExisting(r, q);
    }

    method ClassifyExisting(r: Record, q: Request) returns (result: Outcome)
      ensures result == Classify(View(), r, q)
    {
      if r.invocationID.None? || r.invocationID.value !in invocations {
        return Failed;
      }
      var i := invocations[r.invocationID.value];
      if r.fingerprint != FingerprintOf(q.invocation) || i.toolID != q.invocation.toolID
         || i.toolVersion != q.invocation.toolVersion || i.argumentDigest != q.invocation.argumentDigest {
        return Conflict(i);
      }
      if r.completed {
        return Replayed(i, r.replay);
      }
      if r.expiresAt.Some? && !(q.now < r.expiresAt.value) && r.recoveries >= r.maxRecoveries {
        return Exhausted(i);
      }
      return Pending(i);
    }

    method MarkComplete(c: Completion) returns (ok: bool)
      modifies this
      ensures (View(), ok) == Complete(old(View()), c)
    {
      if c.slot.runID.text == "" || c.slot.toolCallID.text == "" || c.owner.text == "" || c.replay.statusCode < 100
         || c.replay.statusCode > 599 || c.replay.payload.Absent? || c.now == ZERO_TIME {
        return false;
      }
      if c.slot !in records {
        return false;
      }
      var r := records[c.slot];
      if r.completed || r.owner != Some(c.owner) || c.now < r.createdAt || !c.replay.payload.JsonObject? {
        return false;
      }
      records := records[c.slot := Record(r.fingerprint, true, None, None, r.recoveries, r.maxRecoveries,
                                          r.invocationID, Some(c.replay), r.createdAt)];
      return true;
    }
  }

  // ---------------------------------------------------------------- what every step keeps

  ghost predicate RecordOk(t: Tables, slot: Slot) {
    slot in t.records &&
    var r := t.records[slot];
    && r.invocationID.Some? && r.invocationID.value in t.invocations
    && var i := t.invocations[r.invocationID.value];
    && SlotOf(i) == slot && i.id == r.invocationID.value && FingerprintOf(i) == r.fingerprint
    && r.recoveries <= r.maxRecoveries <= 10
    && (r.completed <==> r.replay.Some?)
    && (r.completed <==> r.owner.None?)
    && (r.completed <==> r.expiresAt.None?)
    && (r.expiresAt.Some? ==> r.createdAt < r.expiresAt.value)
  }

  /** Every record is sound, and no invocation exists without the record that created it. */
  ghost predicate TablesOk(t: Tables) {
    (forall slot :: slot in t.records ==> RecordOk(t, slot)) && InvocationsOk(t)
  }

  ghost predicate InvocationsOk(t: Tables) {
    forall id :: id in t.invocations ==> SlotOf(t.invocations[id]) in t.records
  }

  /** What is never lost: the record's fingerprint, invocation and recovery bound; the
      invocation's identity; once completed, the whole record; and until the next recovery or
      the completion, the claim. */
  ghost predicate Extends(t: Tables, t': Tables) {
    && (forall slot :: slot in t.records ==>
          && slot in t'.records
          && var r, r' := t.records[slot], t'.records[slot];
          && r'.fingerprint == r.fingerprint && r'.invocationID == r.invocationID
          && r'.maxRecoveries == r.maxRecoveries && r'.createdAt == r.createdAt
          && r.recoveries <= r'.recoveries && (r.completed ==> r' == r)
          && (r'.recoveries == r.recoveries && !r'.completed ==> r' == r))
    && (forall id :: id in t.invocations ==>
          && id in t'.invocations
          && t'.invocations[id] == t.invocations[id].(state := t'.invocations[id].state))
  }

  lemma ExtendsTransitive(a: Tables, b: Tables, c: Tables)
    requires Extends(a, b) && Extends(b, c)
    ensures Extends(a, c)
  {
    forall slot | slot in a.records ensures slot in c.records {
      assert slot in b.records;
    }
  }

  lemma AcquireKeeps(t: Tables, q: Request)
    requires TablesOk(t)
    ensures TablesOk(Acquire(t, q).0) && Extends(t, Acquire(t, q).0)
  {
    hide Acquire, RecordOk, Extends, InvocationsOk;
    AcquireExtends(t, q);
    AcquireKeepsInvocations(t, q);
    var t' := Acquire(t, q).0;
    forall slot | slot in t'.records ensures RecordOk(t', slot) {
      AcquireKeepsRecord(t, q, slot);
    }
  }

  lemma AcquireExtends(t: Tables, q: Request)
    ensures Extends(t, Acquire(t, q).0)
  {
    hide ValidRequest, Classify;
  }

  lemma AcquireKeepsInvocations(t: Tables, q: Request)
    requires InvocationsOk(t)
    ensures InvocationsOk(Acquire(t, q).0)
  {
    hide ValidRequest, Classify;
  }

  lemma AcquireKeepsRecord(t: Tables, q: Request, slot: Slot)
    requires TablesOk(t) && slot in Acquire(t, q).0.records
    ensures RecordOk(Acquire(t, q).0, slot)
  {
    assert slot in t.records ==> RecordOk(t, slot);
    hide InvocationsOk, Classify;
  }

  lemma CompleteKeeps(t: Tables, c: Completion)
    requires TablesOk(t)
    ensures TablesOk(Complete(t, c).0) && Extends(t, Complete(t, c).0)
  {
    hide Complete, RecordOk, Extends, InvocationsOk;
    CompleteExtends(t, c);
    var t' := Complete(t, c).0;
    forall slot | slot in t'.records ensures RecordOk(t', slot) {
      CompleteKeepsRecord(t, c, slot);
    }
  }

  lemma CompleteExtends(t: Tables, c: Completion)
    ensures Extends(t, Complete(t, c).0)
    ensures InvocationsOk(t) ==> InvocationsOk(Complete(t, c).0)
  {
    hide ValidCompletion, Admits;
  }

  lemma CompleteKeepsRecord(t: Tables, c: Completion, slot: Slot)
    requires TablesOk(t) && slot in Complete(t, c).0.records
    ensures RecordOk(Complete(t, c).0, slot)
  {
    assert RecordOk(t, slot);
    hide ValidCompletion, Admits, InvocationsOk;
  }

  lemma ChangeStateKeeps(t: Tables, id: Name, state: Name)
    requires TablesOk(t)
    ensures TablesOk(ChangeState(t, id, state)) && Extends(t, ChangeState(t, id, state))
  {
    hide RecordOk, Extends, InvocationsOk, ChangeState;
    ChangeStateExtends(t, id, state);
    var t' := ChangeState(t, id, state);
    forall slot | slot in t'.records ensures RecordOk(t', slot) {
      ChangeStateKeepsRecord(t, id, state, slot);
    }
  }

  lemma ChangeStateExtends(t: Tables, id: Name, state: Name)
    ensures Extends(t, ChangeState(t, id, state))
    ensures InvocationsOk(t) ==> InvocationsOk(ChangeState(t, id, state))
  {
  }

  lemma ChangeStateKeepsRecord(t: Tables, id: Name, state: Name, slot: Slot)
    requires TablesOk(t) && slot in ChangeState(t, id, state).records
    ensures RecordOk(ChangeState(t, id, state), slot)
  {
    assert RecordOk(t, slot);
    hide InvocationsOk;
  }

  /** The answer to a valid request on an existing record, case by case: the classification
      names exactly the condition of the upsert that failed. */
  lemma AnswerIsExact(t: Tables, q: Request)
    requires TablesOk(t) && ValidRequest(q) && SlotOf(q.invocation) in t.records
    ensures var r := t.records[SlotOf(q.invocation)];
            var o := Acquire(t, q).1;
            var same := r.fingerprint == FingerprintOf(q.invocation);
            && (o.Conflict? <==> !same)
            && (o.Replayed? <==> same && r.completed)
            && (o.Recovered? <==> same && !r.completed && r.expiresAt.value <= q.now && r.recoveries < r.maxRecoveries)
            && (o.Exhausted? <==> same && !r.completed && r.expiresAt.value <= q.now && r.recoveries == r.maxRecoveries)
            && (o.Pending? <==> same && !r.completed && q.now < r.expiresAt.value)
            && !o.Rejected? && !o.Failed? && !o.Owned?
            && o.invocation == t.invocations[r.invocationID.value]
            && (o.Replayed? ==> o.replay == r.replay && r.replay.Some?)
  {
    assert RecordOk(t, SlotOf(q.invocation));
  }

  /** A grant holds the claim for the lease that was asked for: to the same work it is pending
      until then, and from then on recovered while recoveries are left, exhausted otherwise. */
  lemma GrantHoldsForItsLease(t: Tables, q: Request, later: Request)
    requires TablesOk(t) && Acquire(t, q).1.Granted() && ValidRequest(later)
    requires SlotOf(later.invocation) == SlotOf(q.invocation)
    requires FingerprintOf(later.invocation) == FingerprintOf(q.invocation)
    ensures var t' := Acquire(t, q).0;
            var o := Acquire(t', later).1;
            && SlotOf(q.invocation) in t'.records
            && var r := t'.records[SlotOf(q.invocation)];
            && r.owner == Some(q.owner) && r.expiresAt == Some(q.now + q.lease)
            && (o.Pending? <==> later.now < q.now + q.lease)
            && (o.Recovered? <==> q.now + q.lease <= later.now && r.recoveries < r.maxRecoveries)
            && (o.Exhausted? <==> q.now + q.lease <= later.now && r.recoveries == r.maxRecoveries)
  {
    AcquireKeeps(t, q);
    AnswerIsExact(Acquire(t, q).0, later);
    GrantStores(t, q);
    hide Acquire, Extends, TablesOk, RecordOk;
  }

  lemma GrantStores(t: Tables, q: Request)
    requires TablesOk(t) && Acquire(t, q).1.Granted()
    ensures var t' := Acquire(t, q).0;
            && SlotOf(q.invocation) in t'.records
            && var r := t'.records[SlotOf(q.invocation)];
            && r.owner == Some(q.owner) && r.expiresAt == Some(q.now + q.lease) && !r.completed
            && r.fingerprint == FingerprintOf(q.invocation) && r.recoveries <= r.maxRecoveries
  {
    assert SlotOf(q.invocation) in t.records ==> RecordOk(t, SlotOf(q.invocation));
    hide InvocationsOk, Classify;
  }

  /** A valid request with an ID of its own is the first owner of a slot without a record, and what
      it brings is what is stored. */
  lemma FirstRequestIsOwned(t: Tables, q: Request)
    requires TablesOk(t) && ValidRequest(q)
    requires SlotOf(q.invocation) !in t.records && q.invocation.id !in t.invocations
    ensures var (t', o) := Acquire(t, q);
            && o == Owned(q.invocation)
            && t'.invocations == t.invocations[q.invocation.id := q.invocation]
            && t'.records == t.records[SlotOf(q.invocation) := Record(
                 FingerprintOf(q.invocation), false, Some(q.owner), Some(q.now + q.lease), 0, q.maxRecoveries,
                 Some(q.invocation.id), None, q.now)]
  {
  }
}
