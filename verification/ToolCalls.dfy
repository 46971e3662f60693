/** Whole runs of ToolCallService.Create over the ledger.

    A call acquires the logical invocation, obtains a decision, records it and executes the
    connector, in that order; it may stop after any step. Calls interleave with each other,
    with completions and with state changes of the invocation, and every caller brings its own
    clock. A run is any sequence of steps; a step that cannot happen changes nothing.
 */
module ToolCalls {
  import opened Text
  import opened Bags
  import opened Acquisition

  /** What a call brings after resolving the tool and normalising the arguments. */
  datatype Submission = Submission(
    provisionalID: Name, runID: Name, toolCallID: Name, toolID: Name, toolVersion: Name,
    arguments: string, resourceDigest: Digest,
    owner: Name, now: Time, lease: Time, maxRecoveries: int)

  const ARGUMENT_DOMAIN: string := "ThinkPixelTG:arguments:tg-cjson-v1\0"
  const VALIDATED: Name := Name("validated")

  function ArgumentDigest(arguments: string): Digest {
    Digest(ARGUMENT_DOMAIN + arguments)
  }

  function RequestOf(s: Submission): Request {
    Request(Invocation(s.provisionalID, s.runID, s.toolCallID, s.toolID, s.toolVersion,
                       ArgumentDigest(s.arguments), s.resourceDigest, VALIDATED),
            s.owner, s.now, s.lease, s.maxRecoveries)
  }

  datatype Decision = Decision(id: Name, allow: bool)

  /** A call that holds a grant, and how far it has come. */
  datatype Call =
    | Acquired(work: Submission, invocation: Invocation)
    | Decided(work: Submission, invocation: Invocation, decision: Decision)
    | Cleared(work: Submission, invocation: Invocation, decision: Decision)

  datatype Execution = Execution(
    slot: Slot, invocationID: Name, toolID: Name, toolVersion: Name, arguments: string, decisionID: Name)

  datatype System = System(
    tables: Tables, calls: map<nat, Call>, decisions: map<(Name, Name), bool>,
    executions: seq<Execution>, abandoned: multiset<Slot>, holders: map<Slot, Name>)

  const START: System := System(Tables(map[], map[]), map[], map[], [], multiset{}, map[])

  datatype Step =
    | Create(call: nat, submission: Submission)
    | Authorize(call: nat, decision: Decision)
    | RecordDecision(call: nat)
    | Execute(call: nat)
    | Abandon(call: nat)
    | MarkCompleted(completion: Completion)
    | StateChanged(id: Name, state: Name)

  function Next(s: System, step: Step): System {
    match step
    case Create(c, w) => if c in s.calls then s else Creating(s, c, w)
    case Authorize(c, d) =>
      if c !in s.calls || !s.calls[c].Acquired? then s
      else s.(calls := s.calls[c := Decided(s.calls[c].work, s.calls[c].invocation, d)])
    case RecordDecision(c) => if c !in s.calls || !s.calls[c].Decided? then s else Recording(s, c)
    case Execute(c) => if c !in s.calls || !s.calls[c].Cleared? then s else Executing(s, c)
    case Abandon(c) => if c !in s.calls then s else Abandoning(s, c)
    case MarkCompleted(completion) => s.(tables := Complete(s.tables, completion).0)
    case StateChanged(id, state) => s.(tables := ChangeState(s.tables, id, state))
  }

  function Creating(s: System, c: nat, w: Submission): System {
    var (t, o) := Acquire(s.tables, RequestOf(w));
    if o.Granted() then
      s.(tables := t, calls := s.calls[c := Acquired(w, o.invocation)],
         holders := s.holders[SlotOf(o.invocation) := w.owner])
    else s.(tables := t)
  }

  function SlotHeld(c: Call): multiset<Slot> {
    multiset{SlotOf(c.invocation)}
  }

  function Abandoning(s: System, c: nat): System
    requires c in s.calls
  {
    s.(calls := Without(s.calls, c), abandoned := s.abandoned + SlotHeld(s.calls[c]))
  }

  /** The decision row is keyed by invocation and decision; a refused insert ends the call, and
      so does a recorded denial. */
  function Recording(s: System, c: nat): System
    requires c in s.calls && s.calls[c].Decided?
  {
    var call := s.calls[c];
    var key := (call.invocation.id, call.decision.id);
    if key in s.decisions || call.invocation.id !in s.tables.invocations then Abandoning(s, c)
    else
      var s' := s.(decisions := s.decisions[key := call.decision.allow]);
      if call.decision.allow then s'.(calls := s.calls[c := Cleared(call.work, call.invocation, call.decision)])
      else Abandoning(s', c)
  }

  function ExecutionOf(c: Call): Execution
    requires c.Cleared?
  {
    Execution(SlotOf(c.invocation), c.invocation.id, c.work.toolID, c.work.toolVersion, c.work.arguments, c.decision.id)
  }

  function Executing(s: System, c: nat): System
    requires c in s.calls && s.calls[c].Cleared?
  {
    s.(calls := Without(s.calls, c), executions := s.executions + [ExecutionOf(s.calls[c])])
  }

  function Run(steps: seq<Step>): System {
    if steps == [] then START else Next(Run(steps[..|steps| - 1]), steps[|steps| - 1])
  }

  // ---------------------------------------------------------------- invariant

  function CountAt(xs: seq<Execution>, slot: Slot): nat {
    if xs == [] then 0
    else CountAt(xs[..|xs| - 1], slot) + if xs[|xs| - 1].slot == slot then 1 else 0
  }

  /** Grants ever made for a slot: the first claim and each recovery. */
  function GrantsAt(t: Tables, slot: Slot): nat {
    if slot in t.records then t.records[slot].recoveries + 1 else 0
  }

  /** Every grant is still held by one call, was spent on one execution, or was abandoned. */
  ghost predicate Balanced(s: System, slot: Slot) {
    Bag(s.calls, SlotHeld)[slot] + CountAt(s.executions, slot) + s.abandoned[slot] == GrantsAt(s.tables, slot)
  }

  ghost predicate AllBalanced(s: System) {
    forall slot :: Balanced(s, slot)
  }

  /** The invocation is the one its slot's record points to, with its fingerprint. */
  ghost predicate Anchored(t: Tables, slot: Slot, id: Name, f: Fingerprint) {
    slot in t.records && t.records[slot].invocationID == Some(id) && t.records[slot].fingerprint == f
  }

  function WorkFingerprint(w: Submission): Fingerprint {
    Fingerprint(w.toolID, w.toolVersion, ArgumentDigest(w.arguments))
  }

  ghost predicate CallOk(s: System, c: Call) {
    && Anchored(s.tables, SlotOf(c.invocation), c.invocation.id, WorkFingerprint(c.work))
    && (c.Cleared? ==> var key := (c.invocation.id, c.decision.id); key in s.decisions && s.decisions[key])
  }

  ghost predicate ExecutionOk(s: System, e: Execution) {
    && Anchored(s.tables, e.slot, e.invocationID,
                Fingerprint(e.toolID, e.toolVersion, ArgumentDigest(e.arguments)))
    && (e.invocationID, e.decisionID) in s.decisions && s.decisions[(e.invocationID, e.decisionID)]
  }

  ghost predicate HoldersOk(s: System) {
    forall slot :: slot in s.tables.records && !s.tables.records[slot].completed ==>
      slot in s.holders && s.tables.records[slot].owner == Some(s.holders[slot])
  }

  ghost predicate Inv(s: System) {
    && TablesOk(s.tables)
    && AllBalanced(s)
    && (forall c :: c in s.calls ==> CallOk(s, s.calls[c]))
    && (forall i :: 0 <= i < |s.executions| ==> ExecutionOk(s, s.executions[i]))
    && HoldersOk(s)
  }

  ghost predicate DecisionsGrow(d: map<(Name, Name), bool>, d': map<(Name, Name), bool>) {
    forall key :: key in d ==> key in d' && d'[key] == d[key]
  }

  lemma StillAnchored(t: Tables, t': Tables, slot: Slot, id: Name, f: Fingerprint)
    requires Extends(t, t') && Anchored(t, slot, id, f)
    ensures Anchored(t', slot, id, f)
  {
  }

  lemma OkLater(s: System, s': System)
    requires Extends(s.tables, s'.tables) && DecisionsGrow(s.decisions, s'.decisions)
    ensures forall c: Call :: CallOk(s, c) ==> CallOk(s', c)
    ensures forall e: Execution :: ExecutionOk(s, e) ==> ExecutionOk(s', e)
  {
    hide Extends, Anchored;
    forall c: Call | CallOk(s, c) ensures CallOk(s', c) {
      StillAnchored(s.tables, s'.tables, SlotOf(c.invocation), c.invocation.id, WorkFingerprint(c.work));
    }
    forall e: Execution | ExecutionOk(s, e) ensures ExecutionOk(s', e) {
      StillAnchored(s.tables, s'.tables, e.slot, e.invocationID,
                    Fingerprint(e.toolID, e.toolVersion, ArgumentDigest(e.arguments)));
    }
  }

  lemma ExtendsSelf(t: Tables)
    ensures Extends(t, t)
  {
  }

  // ---------------------------------------------------------------- each step

  /** A grant goes with a request that matches the record, and adds one to the count. */
  lemma GrantFacts(t: Tables, q: Request)
    requires TablesOk(t)
    ensures var (t', o) := Acquire(t, q);
            && (o.Granted() ==>
                  && SlotOf(o.invocation) == SlotOf(q.invocation)
                  && Anchored(t', SlotOf(q.invocation), o.invocation.id, FingerprintOf(q.invocation))
                  && GrantsAt(t', SlotOf(q.invocation)) == GrantsAt(t, SlotOf(q.invocation)) + 1
                  && !t'.records[SlotOf(q.invocation)].completed
                  && t'.records[SlotOf(q.invocation)].owner == Some(q.owner))
            && (!o.Granted() ==> t' == t)
            && (forall slot :: slot != SlotOf(q.invocation) ==>
                  && (slot in t'.records <==> slot in t.records)
                  && (slot in t.records ==> t'.records[slot] == t.records[slot]))
  {
    hide ValidRequest;
    if SlotOf(q.invocation) in t.records {
      assert RecordOk(t, SlotOf(q.invocation));
    }
  }

  lemma CreateKeeps(s: System, c: nat, w: Submission)
    requires Inv(s) && c !in s.calls
    ensures Inv(Creating(s, c, w))
  {
    hide Acquire, Extends, TablesOk, Anchored, BagOver, CountAt, ArgumentDigest;
    var q := RequestOf(w);
    var (t, o) := Acquire(s.tables, q);
    GrantFacts(s.tables, q);
    AcquireKeeps(s.tables, q);
    if o.Granted() {
      var s' := Creating(s, c, w);
      OkLater(s, s');
      BagAdd(s.calls, SlotHeld, c, Acquired(w, o.invocation));
      forall slot ensures Balanced(s', slot) {
        assert Balanced(s, slot);
      }
    }
  }

  lemma DropCallKeeps(s: System, c: nat)
    requires Inv(s) && c in s.calls
    ensures Inv(Abandoning(s, c))
  {
    hide Extends, TablesOk, Anchored, BagOver, CountAt, ArgumentDigest;
    var s' := Abandoning(s, c);
    ExtendsSelf(s.tables);
    OkLater(s, s');
    BagRemove(s.calls, SlotHeld, c);
    forall slot ensures Balanced(s', slot) {
      assert Balanced(s, slot);
    }
  }

  lemma AdvanceKeeps(s: System, c: nat, call: Call)
    requires Inv(s) && c in s.calls && call.invocation == s.calls[c].invocation && CallOk(s, call)
    ensures Inv(s.(calls := s.calls[c := call]))
  {
    hide Extends, TablesOk, Anchored, BagOver, CountAt, ArgumentDigest;
    var s' := s.(calls := s.calls[c := call]);
    ExtendsSelf(s.tables);
    OkLater(s, s');
    BagReplace(s.calls, SlotHeld, c, call);
    Cancel(Bag(s'.calls, SlotHeld), Bag(s.calls, SlotHeld), SlotHeld(call));
    forall slot ensures Balanced(s', slot) {
      assert Balanced(s, slot);
    }
  }

  lemma RecordingKeeps(s: System, c: nat)
    requires Inv(s) && c in s.calls && s.calls[c].Decided?
    ensures Inv(Recording(s, c))
  {
    hide Extends, TablesOk, Anchored, BagOver, CountAt, ArgumentDigest;
    var call := s.calls[c];
    var key := (call.invocation.id, call.decision.id);
    if key in s.decisions || call.invocation.id !in s.tables.invocations {
      DropCallKeeps(s, c);
    } else {
      var s' := s.(decisions := s.decisions[key := call.decision.allow]);
      ExtendsSelf(s.tables);
      OkLater(s, s');
      forall slot ensures Balanced(s', slot) {
        assert Balanced(s, slot);
      }
      if call.decision.allow {
        AdvanceKeeps(s', c, Cleared(call.work, call.invocation, call.decision));
      } else {
        DropCallKeeps(s', c);
      }
    }
  }

  lemma ExecutingKeeps(s: System, c: nat)
    requires Inv(s) && c in s.calls && s.calls[c].Cleared?
    ensures Inv(Executing(s, c))
  {
    hide Extends, TablesOk, Anchored, BagOver, ArgumentDigest;
    var s' := Executing(s, c);
    var e := ExecutionOf(s.calls[c]);
    ExtendsSelf(s.tables);
    OkLater(s, s');
    BagRemove(s.calls, SlotHeld, c);
    assert s'.executions[..|s.executions|] == s.executions;
    assert ExecutionOk(s, e);
    forall slot ensures Balanced(s', slot) {
      assert Balanced(s, slot);
    }
  }

  lemma TablesStepKeeps(s: System, t: Tables)
    requires Inv(s) && TablesOk(t) && Extends(s.tables, t)
    requires forall slot :: GrantsAt(t, slot) == GrantsAt(s.tables, slot)
    requires HoldersOk(s.(tables := t))
    ensures Inv(s.(tables := t))
  {
    hide Extends, TablesOk, Anchored, BagOver, CountAt, ArgumentDigest, HoldersOk;
    var s' := s.(tables := t);
    OkLater(s, s');
    forall slot ensures Balanced(s', slot) {
      assert Balanced(s, slot);
    }
  }

  lemma NextKeeps(s: System, step: Step)
    requires Inv(s)
    ensures Inv(Next(s, step))
  {
    hide Creating, Recording, Executing, Abandoning, TablesOk, Extends, Balanced;
    match step
    case Create(c, w) =>
      if c !in s.calls {
        CreateKeeps(s, c, w);
      }
    case Authorize(c, d) =>
      if c in s.calls && s.calls[c].Acquired? {
        AdvanceKeeps(s, c, Decided(s.calls[c].work, s.calls[c].invocation, d));
      }
    case RecordDecision(c) =>
      if c in s.calls && s.calls[c].Decided? {
        RecordingKeeps(s, c);
      }
    case Execute(c) =>
      if c in s.calls && s.calls[c].Cleared? {
        ExecutingKeeps(s, c);
      }
    case Abandon(c) =>
      if c in s.calls {
        DropCallKeeps(s, c);
      }
    case MarkCompleted(completion) =>
      CompleteKeeps(s.tables, completion);
      TablesStepKeeps(s, Complete(s.tables, completion).0);
    case StateChanged(id, state) =>
      ChangeStateKeeps(s.tables, id, state);
      TablesStepKeeps(s, ChangeState(s.tables, id, state));
  }

  lemma {:induction false} RunKeeps(steps: seq<Step>)
    ensures Inv(Run(steps))
  {
    if steps == [] {
      forall slot ensures Balanced(START, slot) {
      }
    } else {
      hide Inv, Next;
      RunKeeps(steps[..|steps| - 1]);
      NextKeeps(Run(steps[..|steps| - 1]), steps[|steps| - 1]);
    }
  }

  lemma {:induction false} RunExtends(steps: seq<Step>, more: seq<Step>)
    ensures Extends(Run(steps).tables, Run(steps + more).tables)
    decreases |more|
  {
    hide Extends, Inv;
    if more == [] {
      assert steps + more == steps;
      ExtendsSelf(Run(steps).tables);
    } else {
      var n := |more| - 1;
      var before := steps + more[..n];
      assert (steps + more)[..|steps + more| - 1] == before;
      RunExtends(steps, more[..n]);
      RunKeeps(before);
      StepExtends(Run(before), more[n]);
      ExtendsTransitive(Run(steps).tables, Run(before).tables, Run(steps + more).tables);
    }
  }

  lemma StepExtends(s: System, step: Step)
    requires Inv(s)
    ensures Extends(s.tables, Next(s, step).tables)
  {
    hide Extends, Acquire, Complete, ChangeState, TablesOk;
    ExtendsSelf(s.tables);
    match step
    case Create(c, w) => AcquireKeeps(s.tables, RequestOf(w));
    case MarkCompleted(completion) => CompleteKeeps(s.tables, completion);
    case StateChanged(id, state) => ChangeStateKeeps(s.tables, id, state);
    case _ =>
  }

  // ---------------------------------------------------------------- theorems about every run

  /** However calls interleave, expire and recover, the connector runs for one tool call at
      most once more than the recoveries the first request allowed, so at most eleven times. */
  lemma ExecutionsAreBounded(steps: seq<Step>, slot: Slot)
    ensures var s := Run(steps);
            && (slot !in s.tables.records ==> CountAt(s.executions, slot) == 0)
            && (slot in s.tables.records ==>
                  CountAt(s.executions, slot) <= 1 + s.tables.records[slot].maxRecoveries <= 11)
  {
    hide BagOver, CountAt;
    RunKeeps(steps);
    var s := Run(steps);
    assert Balanced(s, slot);
    assert slot in s.tables.records ==> RecordOk(s.tables, slot);
  }

  /** The bound is the one fixed by the request that created the record. */
  lemma FirstRequestFixesTheBound(steps: seq<Step>, more: seq<Step>, c: nat, w: Submission)
    requires c !in Run(steps).calls && Acquire(Run(steps).tables, RequestOf(w)).1.Owned?
    ensures var slot := Slot(w.runID, w.toolCallID);
            var s := Run(steps + [Create(c, w)] + more);
            && slot in s.tables.records
            && s.tables.records[slot].maxRecoveries == w.maxRecoveries
            && s.tables.records[slot].invocationID == Some(w.provisionalID)
            && s.tables.records[slot].fingerprint == WorkFingerprint(w)
            && CountAt(s.executions, slot) <= 1 + w.maxRecoveries
            && w.provisionalID in s.tables.invocations
            && var i := s.tables.invocations[w.provisionalID];
            && i == Invocation(w.provisionalID, w.runID, w.toolCallID, w.toolID, w.toolVersion,
                               Digest("ThinkPixelTG:arguments:tg-cjson-v1\0" + w.arguments), w.resourceDigest, i.state)
            && (more == [] ==> i.state == Name("validated"))
  {
    hide CountAt, BagOver, ValidRequest;
    var first := steps + [Create(c, w)];
    assert first[..|first| - 1] == steps;
    assert more == [] ==> first + more == first;
    RunExtends(first, more);
    ExecutionsAreBounded(first + more, Slot(w.runID, w.toolCallID));
  }

  /** All executions for one tool call carry one invocation, one tool version and one set of
      canonical arguments, and each has its recorded allow decision. */
  lemma ExecutionsAgree(steps: seq<Step>, i: nat, j: nat)
    requires i < |Run(steps).executions| && j < |Run(steps).executions|
    requires Run(steps).executions[i].slot == Run(steps).executions[j].slot
    ensures var s := Run(steps);
            var a, b := s.executions[i], s.executions[j];
            && a.invocationID == b.invocationID && a.toolID == b.toolID && a.toolVersion == b.toolVersion
            && a.arguments == b.arguments
            && (a.invocationID, a.decisionID) in s.decisions && s.decisions[(a.invocationID, a.decisionID)]
            && a.invocationID in s.tables.invocations
            && SlotOf(s.tables.invocations[a.invocationID]) == a.slot
            && s.tables.invocations[a.invocationID].toolVersion == a.toolVersion
  {
    hide CountAt, BagOver, AllBalanced, HoldersOk;
    RunKeeps(steps);
    var s := Run(steps);
    var a, b := s.executions[i], s.executions[j];
    assert ExecutionOk(s, a) && ExecutionOk(s, b);
    assert RecordOk(s.tables, a.slot);
    var x, y := ARGUMENT_DOMAIN + a.arguments, ARGUMENT_DOMAIN + b.arguments;
    assert x == y;
    assert x[|ARGUMENT_DOMAIN|..] == a.arguments && y[|ARGUMENT_DOMAIN|..] == b.arguments;
  }

  /** When the connector is called, the allow decision for it is already in the table. */
  lemma ExecutionFollowsDecision(steps: seq<Step>, c: nat)
    requires c in Run(steps).calls && Run(steps).calls[c].Cleared?
    ensures var s := Run(steps);
            var e := ExecutionOf(s.calls[c]);
            && Run(steps + [Execute(c)]).executions == s.executions + [e]
            && (e.invocationID, e.decisionID) in s.decisions && s.decisions[(e.invocationID, e.decisionID)]
            && c !in Run(steps + [Execute(c)]).calls
  {
    hide CountAt, BagOver, AllBalanced, HoldersOk, TablesOk;
    RunKeeps(steps);
    assert (steps + [Execute(c)])[..|steps|] == steps;
    assert CallOk(Run(steps), Run(steps).calls[c]);
  }

  /** In every run, a call for a free slot with a valid submission and an ID of its own owns it. */
  lemma FreeSlotIsOwned(steps: seq<Step>, c: nat, w: Submission)
    requires c !in Run(steps).calls && ValidRequest(RequestOf(w))
    requires Slot(w.runID, w.toolCallID) !in Run(steps).tables.records
    requires w.provisionalID !in Run(steps).tables.invocations
    ensures var s := Run(steps + [Create(c, w)]);
            && c in s.calls && s.calls[c] == Acquired(w, RequestOf(w).invocation)
            && Slot(w.runID, w.toolCallID) in s.tables.records
  {
    RunKeeps(steps);
    FirstRequestIsOwned(Run(steps).tables, RequestOf(w));
    assert (steps + [Create(c, w)])[..|steps|] == steps;
    hide Acquire, ValidRequest, CountAt, TablesOk;
  }

  /** In every run, from a grant up to the next grant or the completion of its slot, the same work
      is pending exactly until the granted lease has run out. */
  lemma GrantedLeaseHolds(steps: seq<Step>, c: nat, w: Submission, more: seq<Step>, later: Request)
    requires c !in Run(steps).calls && Acquire(Run(steps).tables, RequestOf(w)).1.Granted() && ValidRequest(later)
    requires SlotOf(later.invocation) == Slot(w.runID, w.toolCallID)
    requires FingerprintOf(later.invocation) == WorkFingerprint(w)
    ensures var slot := Slot(w.runID, w.toolCallID);
            var granted := Run(steps + [Create(c, w)]).tables;
            var t := Run(steps + [Create(c, w)] + more).tables;
            var o := Acquire(t, later).1;
            && slot in granted.records && slot in t.records
            && (t.records[slot].recoveries == granted.records[slot].recoveries && !t.records[slot].completed ==>
                  && (o.Pending? <==> later.now < w.now + w.lease)
                  && (o.Recovered? || o.Exhausted? <==> w.now + w.lease <= later.now))
  {
    hide Acquire, CountAt, BagOver, AllBalanced, HoldersOk, ValidRequest;
    var first := steps + [Create(c, w)];
    assert first[..|first| - 1] == steps;
    RunKeeps(steps);
    GrantStores(Run(steps).tables, RequestOf(w));
    RunExtends(first, more);
    RunKeeps(first + more);
    AnswerIsExact(Run(first + more).tables, later);
  }

  /** A decision is recorded as it was given, under the invocation it was asked for; a recorded
      denial ends the call and only a recorded allow clears it. */
  lemma DecisionIsRecorded(steps: seq<Step>, c: nat, d: Decision)
    requires c in Run(steps).calls && Run(steps).calls[c].Acquired?
    ensures var s := Run(steps);
            var i := s.calls[c].invocation;
            var t := Run(steps + [Authorize(c, d)] + [RecordDecision(c)]);
            && t.tables == s.tables && t.executions == s.executions
            && (if (i.id, d.id) in s.decisions then t.decisions == s.decisions && c !in t.calls
                else t.decisions == s.decisions[(i.id, d.id) := d.allow]
                     && (c in t.calls <==> d.allow)
                     && (d.allow ==> t.calls[c] == Cleared(s.calls[c].work, i, d)))
  {
    hide Run, Inv, Next;
    RunKeeps(steps);
    RunOne(steps, Authorize(c, d));
    RunOne(steps + [Authorize(c, d)], RecordDecision(c));
    InvocationIsDurable(Run(steps), c);
    DecisionGoesIn(Run(steps), c, d);
  }

  lemma DecisionGoesIn(s: System, c: nat, d: Decision)
    requires c in s.calls && s.calls[c].Acquired? && s.calls[c].invocation.id in s.tables.invocations
    ensures var i := s.calls[c].invocation;
            var t := Next(Next(s, Authorize(c, d)), RecordDecision(c));
            && t.tables == s.tables && t.executions == s.executions
            && (if (i.id, d.id) in s.decisions then t.decisions == s.decisions && c !in t.calls
                else t.decisions == s.decisions[(i.id, d.id) := d.allow]
                     && (c in t.calls <==> d.allow)
                     && (d.allow ==> t.calls[c] == Cleared(s.calls[c].work, i, d)))
  {
    hide Creating, Complete, ChangeState;
  }

  lemma InvocationIsDurable(s: System, c: nat)
    requires Inv(s) && c in s.calls
    ensures s.calls[c].invocation.id in s.tables.invocations
  {
    hide AllBalanced, HoldersOk;
    assert CallOk(s, s.calls[c]);
    assert RecordOk(s.tables, SlotOf(s.calls[c].invocation));
  }

  /** Once a record exists, every later answer names its invocation, and a request conflicts
      exactly when its tool, version or arguments differ from the first one's. */
  lemma AnswersAgree(steps: seq<Step>, more: seq<Step>, slot: Slot, q: Request)
    requires slot in Run(steps).tables.records && SlotOf(q.invocation) == slot && ValidRequest(q)
    ensures var first := Run(steps).tables.records[slot];
            var o := Acquire(Run(steps + more).tables, q).1;
            && (o.Recovered? || o.Pending? || o.Replayed? || o.Conflict? || o.Exhausted?)
            && Some(o.invocation.id) == first.invocationID && SlotOf(o.invocation) == slot
            && FingerprintOf(o.invocation) == first.fingerprint
            && (o.Conflict? <==> FingerprintOf(q.invocation) != first.fingerprint)
  {
    hide CountAt, BagOver, AllBalanced, HoldersOk, Acquire, ValidRequest;
    RunKeeps(steps + more);
    RunExtends(steps, more);
    AnswerIsExact(Run(steps + more).tables, q);
    assert RecordOk(Run(steps + more).tables, slot);
  }

  /** At most one completion succeeds, and from then on every matching request gets exactly
      its payload back, every other request a conflict, and nothing is ever granted again. */
  lemma CompletionIsFinal(steps: seq<Step>, more: seq<Step>, done: Completion, again: Completion, q: Request)
    requires Complete(Run(steps).tables, done).1
    requires again.slot == done.slot && SlotOf(q.invocation) == done.slot && ValidRequest(q)
    ensures var t := Run(steps + [MarkCompleted(done)] + more).tables;
            && !Complete(t, again).1
            && var o := Acquire(t, q).1;
               if FingerprintOf(q.invocation) == Run(steps).tables.records[done.slot].fingerprint
               then o.Replayed? && o.replay == Some(done.replay) else o.Conflict?
  {
    hide CountAt, BagOver, AllBalanced, HoldersOk, Acquire, ValidRequest;
    var first := steps + [MarkCompleted(done)];
    assert first[..|first| - 1] == steps;
    RunExtends(first, more);
    RunKeeps(first + more);
    AnswerIsExact(Run(first + more).tables, q);
  }

  /** Completion goes by the name of the last owner granted, not by the lease: a valid one
      that the table admits succeeds if and only if nobody has completed and nobody under another
      name was granted since. */
  lemma CompletionGoesByName(steps: seq<Step>, c: Completion)
    ensures var s := Run(steps);
            Complete(s.tables, c).1 <==>
            && ValidCompletion(c)
            && c.slot in s.tables.records && Admits(s.tables.records[c.slot], c)
            && !s.tables.records[c.slot].completed
            && c.slot in s.holders && s.holders[c.slot] == c.owner
  {
    hide CountAt, BagOver, AllBalanced, ValidCompletion;
    RunKeeps(steps);
    assert c.slot in Run(steps).tables.records ==> RecordOk(Run(steps).tables, c.slot);
  }

  // ---------------------------------------------------------------- the bound is reached

  const RUN: Name := Name("r")
  const CALL: Name := Name("tool-call")
  const TARGET: Slot := Slot(RUN, CALL)

  /** The same work, submitted again each time the lease of the last submission has run out. */
  function Again(most: nat, i: nat): Submission {
    Submission(Name("i"), RUN, CALL, Name("a.b"), Name("1.0.0"), "{}", Digest("p"), Name("o"), i + 1, 1, most)
  }

  /** A decision ID of its own for every round. */
  function Tag(i: nat): Name {
    Name(seq(i, _ => 'd'))
  }

  function Rounds(most: nat, n: nat): seq<Step> {
    if n == 0 then []
    else Rounds(most, n - 1) + [Create(0, Again(most, n - 1))] + [Authorize(0, Decision(Tag(n - 1), true))]
         + [RecordDecision(0)] + [Execute(0)]
  }

  /** After n rounds: one record, recovered n - 1 times, and n executions. */
  ghost predicate After(s: System, most: nat, n: nat) {
    var first := RequestOf(Again(most, 0));
    && (n == 0 ==> s.tables == Tables(map[], map[]))
    && (n > 0 ==>
          && s.tables.invocations == map[Name("i") := first.invocation]
          && s.tables.records == map[TARGET := Record(
               FingerprintOf(first.invocation), false, Some(Name("o")), Some(n + 1), n - 1, most, Some(Name("i")), None, 1)])
    && s.calls == map[] && CountAt(s.executions, TARGET) == n
    && forall key :: key in s.decisions ==> |key.1.text| < n
  }

  lemma RunOne(steps: seq<Step>, step: Step)
    ensures Run(steps + [step]) == Next(Run(steps), step)
  {
    assert (steps + [step])[..|steps|] == steps;
  }

  lemma RoundIsGranted(s: System, most: nat, n: nat)
    requires n <= most <= 10 && After(s, most, n)
    ensures var t := Next(s, Create(0, Again(most, n)));
            && 0 in t.calls && t.calls == map[0 := Acquired(Again(most, n), RequestOf(Again(most, 0)).invocation)]
            && t.executions == s.executions && t.decisions == s.decisions
            && t.tables.invocations == map[Name("i") := RequestOf(Again(most, 0)).invocation]
            && t.tables.records == map[TARGET := Record(
                 FingerprintOf(RequestOf(Again(most, 0)).invocation), false, Some(Name("o")), Some(n + 2), n, most,
                 Some(Name("i")), None, 1)]
  {
    hide CountAt, ArgumentDigest;
  }

  /** A granted call that is allowed under a new decision executes. */
  lemma GrantedExecutes(s: System, work: Submission, i: Invocation, tag: Name)
    requires s.calls == map[0 := Acquired(work, i)] && i.id in s.tables.invocations && (i.id, tag) !in s.decisions
    ensures var t := Next(Next(Next(s, Authorize(0, Decision(tag, true))), RecordDecision(0)), Execute(0));
            && t.tables == s.tables && t.calls == map[] && t.decisions == s.decisions[(i.id, tag) := true]
            && |t.executions| == |s.executions| + 1 && t.executions[..|s.executions|] == s.executions
            && t.executions[|s.executions|].slot == SlotOf(i)
  {
    hide Creating, Complete, ChangeState, Abandoning;
    var d := Decision(tag, true);
    var s2 := s.(calls := map[0 := Decided(work, i, d)]);
    var s3 := s2.(calls := map[0 := Cleared(work, i, d)], decisions := s.decisions[(i.id, tag) := true]);
    assert Next(s, Authorize(0, d)) == s2 by { assert s.calls[0 := Decided(work, i, d)] == s2.calls; }
    assert Next(s2, RecordDecision(0)) == s3 by { assert s2.calls[0 := Cleared(work, i, d)] == s3.calls; }
    assert Without(s3.calls, 0) == map[];
  }

  lemma CountOne(xs: seq<Execution>, ys: seq<Execution>, slot: Slot)
    requires |ys| == |xs| + 1 && ys[..|xs|] == xs && ys[|xs|].slot == slot
    ensures CountAt(ys, slot) == CountAt(xs, slot) + 1
  {
  }

  lemma RoundGoes(steps: seq<Step>, most: nat, n: nat)
    requires n <= most <= 10 && After(Run(steps), most, n)
    ensures After(Run(steps + [Create(0, Again(most, n))] + [Authorize(0, Decision(Tag(n), true))]
                      + [RecordDecision(0)] + [Execute(0)]), most, n + 1)
  {
    hide Run, Next, RequestOf, CountAt;
    var create, authorize := Create(0, Again(most, n)), Authorize(0, Decision(Tag(n), true));
    RunOne(steps, create);
    RunOne(steps + [create], authorize);
    RunOne(steps + [create] + [authorize], RecordDecision(0));
    RunOne(steps + [create] + [authorize] + [RecordDecision(0)], Execute(0));
    var s := Run(steps);
    RoundIsGranted(s, most, n);
    var s1 := Next(s, create);
    var i := RequestOf(Again(most, 0)).invocation;
    SampleInvocation(most);
    assert |Tag(n).text| == n;
    GrantedExecutes(s1, Again(most, n), i, Tag(n));
    CountOne(s.executions, Next(Next(Next(s1, authorize), RecordDecision(0)), Execute(0)).executions, TARGET);
  }

  lemma SampleInvocation(most: nat)
    ensures var i := RequestOf(Again(most, 0)).invocation; i.id == Name("i") && SlotOf(i) == TARGET
  {
  }

  lemma {:induction false} RoundsGo(most: nat, n: nat)
    requires n <= most + 1 && most <= 10
    ensures After(Run(Rounds(most, n)), most, n)
  {
    hide After, Next, Run, Again, Tag;
    if n == 0 {
      NothingYet(most);
    } else {
      RoundsGo(most, n - 1);
      RoundGoes(Rounds(most, n - 1), most, n - 1);
    }
  }

  lemma NothingYet(most: nat)
    ensures After(Run([]), most, 0)
  {
  }

  /** For every number of recoveries a request may allow, some run executes the connector exactly
      once more than that: the bound cannot be improved. */
  lemma BoundIsReached(most: nat)
    requires most <= 10
    ensures exists steps: seq<Step>, slot: Slot ::
              && slot in Run(steps).tables.records && Run(steps).tables.records[slot].maxRecoveries == most
              && CountAt(Run(steps).executions, slot) == 1 + most
  {
    RoundsGo(most, most + 1);
    hide Run, CountAt, Rounds;
    assert TARGET in Run(Rounds(most, most + 1)).tables.records;
  }
}
