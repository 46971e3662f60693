/** The invocation lifecycle: one guarded transition, and what every run of them guarantees. */
module InvocationState {
  import opened Text

  datatype State = Received | Validated | Authorized | PreToolPassed | WaitingForApproval
                 | Ready | Executing | RetryWait | Reconciling | Ambiguous | ManualReview
                 | PostTool | Succeeded | Failed | Denied | Blocked | Cancelled
                 | UnknownState(text: Name)

  datatype Actor = Ingress | Orchestrator | Worker | Reconciler | Operator | AGAdapter | GRAdapter
                 | UnknownActor(text: Name)

  datatype Error = InvalidState | InvalidActor | VersionConflict | TerminalImmutable | VersionExhausted
                 | IllegalTransition | ActorForbidden | ApprovalRequired | FenceRequired | ResolutionRequired

  datatype Snapshot = Snapshot(state: State, version: int)

  datatype Command = Command(
    actor: Actor, target: State, expectedVersion: int,
    approvalSatisfied: bool, currentFence: bool, resolutionRecorded: bool)

  datatype Result = Ok(snapshot: Snapshot) | Err(error: Error)

  const MAX_INT64 := 0x7FFF_FFFF_FFFF_FFFF

  predicate Terminal(s: State) {
    s.Succeeded? || s.Failed? || s.Denied? || s.Blocked? || s.Cancelled?
  }

  // ---------------------------------------------------------------- the rule table

  datatype Need = Nothing | Approval | Fence | Resolution

  datatype Rule = Rule(actors: set<Actor>, need: Need)

  const BOTH := {Ingress, Orchestrator}

  function RuleFor(source: State, target: State): Option<Rule> {
    match source
    case Received =>
      if target in {Validated, Failed, Cancelled} then Some(Rule(BOTH, Nothing)) else None
    case Validated =>
      if target in {Failed, Cancelled} then Some(Rule(BOTH, Nothing))
      else if target in {Authorized, Denied} then Some(Rule({Orchestrator}, Nothing)) else None
    case Authorized =>
      if target.Cancelled? then Some(Rule(BOTH, Nothing))
      else if target in {PreToolPassed, Validated, Failed, Blocked} then Some(Rule({Orchestrator}, Nothing)) else None
    case PreToolPassed =>
      if target.Cancelled? then Some(Rule(BOTH, Nothing))
      else if target in {WaitingForApproval, Ready, Validated, Failed, Blocked} then Some(Rule({Orchestrator}, Nothing))
      else None
    case WaitingForApproval =>
      if target.Cancelled? then Some(Rule(BOTH, Nothing))
      else if target.Ready? then Some(Rule({Orchestrator}, Approval))
      else if target in {Validated, Failed, Blocked} then Some(Rule({Orchestrator}, Nothing)) else None
    case Ready =>
      if target.Executing? then Some(Rule({Worker}, Fence))
      else if target.Failed? then Some(Rule({Orchestrator}, Nothing))
      else if target.Cancelled? then Some(Rule(BOTH, Nothing)) else None
    case Executing =>
      if target in {PostTool, RetryWait, Ambiguous, Failed} then Some(Rule({Worker}, Fence)) else None
    case RetryWait =>
      if target.Executing? then Some(Rule({Worker}, Fence))
      else if target in {Failed, Cancelled} then Some(Rule({Orchestrator}, Nothing)) else None
    case Ambiguous =>
      if target.Reconciling? then Some(Rule({Reconciler}, Fence))
      else if target.ManualReview? then Some(Rule({Orchestrator, Reconciler}, Nothing)) else None
    case Reconciling =>
      if target in {PostTool, RetryWait, ManualReview, Failed, Cancelled} then Some(Rule({Reconciler}, Fence)) else None
    case ManualReview =>
      if target in {PostTool, RetryWait, Failed, Cancelled} then Some(Rule({Operator}, Resolution)) else None
    case PostTool =>
      if target in {Succeeded, Failed, Blocked} then Some(Rule({Orchestrator}, Nothing)) else None
    case _ => None
  }

  function Transition(current: Snapshot, c: Command): Result {
    if current.state.UnknownState? || c.target.UnknownState? || current.version < 0 then Err(InvalidState)
    else if c.actor.UnknownActor? then Err(InvalidActor)
    else if c.expectedVersion != current.version then Err(VersionConflict)
    else if Terminal(current.state) then Err(TerminalImmutable)
    else if current.version == MAX_INT64 then Err(VersionExhausted)
    else
      var found := RuleFor(current.state, c.target);
      if found.None? then Err(IllegalTransition)
      else
        var rule := found.value;
        if c.actor !in rule.actors then Err(ActorForbidden)
        else if rule.need.Approval? && !c.approvalSatisfied then Err(ApprovalRequired)
        else if rule.need.Fence? && !c.currentFence then Err(FenceRequired)
        else if rule.need.Resolution? && !c.resolutionRecorded then Err(ResolutionRequired)
        else Ok(Snapshot(c.target, current.version + 1))
  }

  // ---------------------------------------------------------------- runs

  /** A refused command leaves the snapshot as it was. */
  function Apply(s: Snapshot, c: Command): Snapshot {
    var r := Transition(s, c);
    if r.Ok? then r.snapshot else s
  }

  function Run(version: nat, commands: seq<Command>): Snapshot {
    if commands == [] then Snapshot(Received, version)
    else Apply(Run(version, commands[..|commands| - 1]), commands[|commands| - 1])
  }

  /** The state after the first `i` commands. */
  function At(version: nat, commands: seq<Command>, i: nat): State
    requires i <= |commands|
  {
    Run(version, commands[..i]).state
  }

  /** Command `i` took effect and moved the invocation. */
  ghost predicate Moved(version: nat, commands: seq<Command>, i: nat, source: State, target: State) {
    && i < |commands|
    && Transition(Run(version, commands[..i]), commands[i]).Ok?
    && At(version, commands, i) == source && At(version, commands, i + 1) == target
  }

  /** The state stays `s` from position i up to position j. */
  ghost predicate Held(version: nat, commands: seq<Command>, i: nat, j: nat, s: State) {
    i <= j <= |commands| && forall k :: i <= k <= j ==> At(version, commands, k) == s
  }

  lemma StepAt(version: nat, commands: seq<Command>, i: nat)
    requires i < |commands|
    ensures Run(version, commands[..i + 1]) == Apply(Run(version, commands[..i]), commands[i])
  {
    assert commands[..i + 1][..i] == commands[..i];
  }

  /** What put the invocation into the state it is in. */
  lemma {:induction false} LastMove(version: nat, commands: seq<Command>, n: nat) returns (i: nat, source: State)
    requires n <= |commands| && !At(version, commands, n).Received?
    ensures i < n && Moved(version, commands, i, source, At(version, commands, n))
    ensures Held(version, commands, i + 1, n, At(version, commands, n))
    decreases n
  {
    hide RuleFor;
    StepAt(version, commands, n - 1);
    if Transition(Run(version, commands[..n - 1]), commands[n - 1]).Ok? {
      i, source := n - 1, At(version, commands, n - 1);
    } else {
      i, source := LastMove(version, commands, n - 1);
      forall k | i + 1 <= k <= n ensures At(version, commands, k) == At(version, commands, n) {
      }
    }
  }

  // ---------------------------------------------------------------- one transition

  /** What the rule table allows a single command to do. */
  lemma OneStep(s: Snapshot, c: Command)
    ensures var t := Apply(s, c);
            && (!Early(s.state) ==> !Early(t.state))
            && (Terminal(s.state) ==> t == s)
            && (Started(t.state) ==> Started(s.state) || t.state.Executing?)
            && (Underway(t.state) && !Underway(s.state) ==> t.state.Ready?)
            && (Transition(s, c).Err? ==> t == s)
            && (Transition(s, c).Ok? ==> t.version == s.version + 1 && c.expectedVersion == s.version)
  {
  }

  // The transitions again, actor by actor: what each may do, and what it must show for it.

  predicate WorkerMay(source: State, target: State) {
    || (target.Executing? && (source.Ready? || source.RetryWait?))
    || (source.Executing? && (target.PostTool? || target.RetryWait? || target.Ambiguous? || target.Failed?))
  }

  predicate ReconcilerMay(source: State, target: State) {
    || (source.Ambiguous? && target.Reconciling?)
    || (source.Reconciling? &&
        (target.PostTool? || target.RetryWait? || target.ManualReview? || target.Failed? || target.Cancelled?))
  }

  predicate OperatorMay(source: State, target: State) {
    source.ManualReview? && (target.PostTool? || target.RetryWait? || target.Failed? || target.Cancelled?)
  }

  predicate IngressMay(source: State, target: State) {
    || (target.Cancelled? && (Early(source) || source.Ready?))
    || (source.Received? && (target.Validated? || target.Failed?))
    || (source.Validated? && target.Failed?)
  }

  /** What the orchestrator may do besides what ingress may. */
  predicate OrchestratorMay(source: State, target: State) {
    || (source.Validated? && (target.Authorized? || target.Denied?))
    || (source.Authorized? && (target.PreToolPassed? || target.Validated? || target.Failed? || target.Blocked?))
    || (source.PreToolPassed? &&
        (target.WaitingForApproval? || target.Ready? || target.Validated? || target.Failed? || target.Blocked?))
    || (source.WaitingForApproval? && (target.Validated? || target.Failed? || target.Blocked?))
    || (source.Ready? && target.Failed?)
    || (source.RetryWait? && (target.Failed? || target.Cancelled?))
    || (source.PostTool? && (target.Succeeded? || target.Failed? || target.Blocked?))
  }

  /** The actor may make the move with what the command shows. */
  predicate Permitted(source: State, c: Command) {
    match c.actor
    case Worker => c.currentFence && WorkerMay(source, c.target)
    case Reconciler => (c.currentFence && ReconcilerMay(source, c.target)) || (source.Ambiguous? && c.target.ManualReview?)
    case Operator => c.resolutionRecorded && OperatorMay(source, c.target)
    case Ingress => IngressMay(source, c.target)
    case Orchestrator =>
      || IngressMay(source, c.target) || OrchestratorMay(source, c.target)
      || (source.Ambiguous? && c.target.ManualReview?)
      || (c.approvalSatisfied && source.WaitingForApproval? && c.target.Ready?)
    case _ => false
  }

  /** A command takes effect if and only if it was decided on the current version, which is not
      the last one, and its actor is permitted the move; it then changes state and version only. */
  lemma TransitionIff(s: Snapshot, c: Command)
    ensures Transition(s, c).Ok? <==>
            c.expectedVersion == s.version && 0 <= s.version != 0x7FFF_FFFF_FFFF_FFFF && Permitted(s.state, c)
    ensures Transition(s, c).Ok? ==> Transition(s, c).snapshot == Snapshot(c.target, s.version + 1)
  {
    PermittedFrom(s, c);
    hide Permitted, RuleFor;
  }

  lemma PermittedFrom(s: Snapshot, c: Command)
    ensures (!Terminal(s.state) && !s.state.UnknownState? && !c.target.UnknownState? && !c.actor.UnknownActor?
             && var rule := RuleFor(s.state, c.target);
                && rule.Some? && c.actor in rule.value.actors
                && (rule.value.need.Approval? ==> c.approvalSatisfied)
                && (rule.value.need.Fence? ==> c.currentFence)
                && (rule.value.need.Resolution? ==> c.resolutionRecorded))
            <==> Permitted(s.state, c)
  {
  }

  /** Why a command is refused, in the order in which reasons are looked for. */
  lemma RefusalReason(s: Snapshot, c: Command)
    requires Transition(s, c).Err?
    ensures var e := Transition(s, c).error;
            var known := !s.state.UnknownState? && !c.target.UnknownState? && s.version >= 0;
            var decided := known && !c.actor.UnknownActor? && c.expectedVersion == s.version;
            && (e.InvalidState? <==> !known)
            && (e.InvalidActor? <==> known && c.actor.UnknownActor?)
            && (e.VersionConflict? <==> known && !c.actor.UnknownActor? && c.expectedVersion != s.version)
            && (e.TerminalImmutable? <==>
                  decided && s.state in {Succeeded, Failed, Denied, Blocked, Cancelled})
            && (e.ApprovalRequired? ==> !c.approvalSatisfied && Permitted(s.state, c.(approvalSatisfied := true)))
            && (e.FenceRequired? ==> !c.currentFence && Permitted(s.state, c.(currentFence := true)))
            && (e.ResolutionRequired? ==> !c.resolutionRecorded && Permitted(s.state, c.(resolutionRecorded := true)))
            && (e.IllegalTransition? ==> !exists d: Command :: d.target == c.target && Permitted(s.state, d))
            && (e.ActorForbidden? ==>
                  !exists d: Command :: d.target == c.target && d.actor == c.actor && Permitted(s.state, d))
  {
    PermittedFrom(s, c);
    PermittedFrom(s, c.(approvalSatisfied := true));
    PermittedFrom(s, c.(currentFence := true));
    PermittedFrom(s, c.(resolutionRecorded := true));
    forall d: Command | d.target == c.target && Permitted(s.state, d)
      ensures RuleFor(s.state, c.target).Some? && d.actor in RuleFor(s.state, c.target).value.actors
    {
      PermittedFrom(s, d);
    }
    hide Permitted, RuleFor;
  }

  /** Where a move into one of the clearing states comes from. */
  lemma WhereFrom(s: Snapshot, c: Command)
    requires Transition(s, c).Ok?
    ensures var t := Apply(s, c).state;
            && (t.Ready? ==> s.state.PreToolPassed? || (s.state.WaitingForApproval? && c.approvalSatisfied))
            && (t.WaitingForApproval? ==> s.state.PreToolPassed?)
            && (t.PreToolPassed? ==> s.state.Authorized?)
            && (t.Authorized? ==> s.state.Validated?)
  {
  }

  // ---------------------------------------------------------------- never back before Ready

  predicate Early(s: State) {
    s.Received? || s.Validated? || s.Authorized? || s.PreToolPassed? || s.WaitingForApproval?
  }

  /** Once past approval, an invocation never goes back to before Ready. */
  lemma {:induction false} NeverBack(version: nat, commands: seq<Command>, i: nat, j: nat)
    requires i <= j <= |commands| && !Early(At(version, commands, i))
    ensures !Early(At(version, commands, j))
    decreases j
  {
    hide Run, Apply, Transition, Early;
    if i < j {
      NeverBack(version, commands, i, j - 1);
      StepAt(version, commands, j - 1);
      OneStep(Run(version, commands[..j - 1]), commands[j - 1]);
    }
  }

  // ---------------------------------------------------------------- the way to Executing

  /** Past Ready and not yet stopped short: every such state lies behind an entry into Ready. */
  predicate Underway(s: State) {
    s.Ready? || Started(s)
  }

  /** States only an execution leads to. */
  predicate Started(s: State) {
    || s.Executing? || s.RetryWait? || s.Reconciling? || s.Ambiguous? || s.ManualReview?
    || s.PostTool? || s.Succeeded?
  }

  lemma {:induction false} EnteredReady(version: nat, commands: seq<Command>, n: nat) returns (i: nat, source: State)
    requires n <= |commands| && Underway(At(version, commands, n))
    ensures i < n && Moved(version, commands, i, source, Ready)
    decreases n
  {
    if n > 0 {
      StepAt(version, commands, n - 1);
      OneStep(Run(version, commands[..n - 1]), commands[n - 1]);
    }
    hide Transition;
    if Underway(At(version, commands, n - 1)) {
      i, source := EnteredReady(version, commands, n - 1);
    } else {
      i, source := n - 1, At(version, commands, n - 1);
    }
  }

  /** The positions at which the invocation was validated, authorized, passed its checks, was
      possibly put to approval, and became ready; in a row, holding each state in between. */
  ghost predicate Cleared(version: nat, cs: seq<Command>, v: nat, a: nat, p: nat, w: Option<nat>, r: nat) {
    && v < a < p && (exists s :: Moved(version, cs, v, s, Validated))
    && Held(version, cs, v + 1, a, Validated) && Moved(version, cs, a, Validated, Authorized)
    && Held(version, cs, a + 1, p, Authorized) && Moved(version, cs, p, Authorized, PreToolPassed)
    && match w
       case None =>
         p < r && Held(version, cs, p + 1, r, PreToolPassed) && Moved(version, cs, r, PreToolPassed, Ready)
       case Some(w) =>
         && p < w < r && Held(version, cs, p + 1, w, PreToolPassed)
         && Moved(version, cs, w, PreToolPassed, WaitingForApproval)
         && Held(version, cs, w + 1, r, WaitingForApproval)
         && Moved(version, cs, r, WaitingForApproval, Ready) && cs[r].approvalSatisfied
  }

  lemma MovedFrom(version: nat, cs: seq<Command>, i: nat, source: State, target: State)
    requires Moved(version, cs, i, source, target)
    ensures target.Ready? ==> source.PreToolPassed? || (source.WaitingForApproval? && cs[i].approvalSatisfied)
    ensures target.WaitingForApproval? ==> source.PreToolPassed?
    ensures target.PreToolPassed? ==> source.Authorized?
    ensures target.Authorized? ==> source.Validated?
  {
    hide Transition;
    StepAt(version, cs, i);
    WhereFrom(Run(version, cs[..i]), cs[i]);
  }

  lemma ClearedBefore(version: nat, cs: seq<Command>, r: nat, source: State) returns (v: nat, a: nat, p: nat, w: Option<nat>)
    requires Moved(version, cs, r, source, Ready)
    ensures Cleared(version, cs, v, a, p, w, r)
  {
    hide Run, Held, Transition;
    MovedFrom(version, cs, r, source, Ready);
    var at := r;
    w := None;
    if source.WaitingForApproval? {
      var i, s := LastMove(version, cs, r);
      MovedFrom(version, cs, i, s, WaitingForApproval);
      w, at := Some(i), i;
    }
    var s1, s2, s3;
    p, s1 := LastMove(version, cs, at);
    MovedFrom(version, cs, p, s1, PreToolPassed);
    a, s2 := LastMove(version, cs, p);
    MovedFrom(version, cs, a, s2, Authorized);
    v, s3 := LastMove(version, cs, a);
  }

  /** Whatever is executing, was executing or succeeded had been cleared first, and since the
      entry into Ready it has not been back. */
  lemma ExecutionWasCleared(version: nat, cs: seq<Command>, n: nat)
    requires n <= |cs| && Underway(At(version, cs, n))
    ensures exists v: nat, a: nat, p: nat, w: Option<nat>, r: nat ::
              r < n && Cleared(version, cs, v, a, p, w, r) &&
              forall k :: r < k <= n ==> !Early(At(version, cs, k))
  {
    hide Cleared, Run, Transition;
    var r, source := EnteredReady(version, cs, n);
    var v, a, p, w := ClearedBefore(version, cs, r, source);
    forall k | r < k <= n ensures !Early(At(version, cs, k)) {
      NeverBack(version, cs, r + 1, k);
    }
  }

  /** Nothing starts executing, and nothing leaves Executing, without a worker that holds the
      current fence. */
  lemma ExecutionIsFenced(version: nat, cs: seq<Command>, i: nat, source: State, target: State)
    requires Moved(version, cs, i, source, target) && (source.Executing? || target.Executing?)
    ensures cs[i].actor.Worker? && cs[i].currentFence
  {
    hide Transition, Run;
    StepAt(version, cs, i);
    TransitionIff(Run(version, cs[..i]), cs[i]);
  }

  ghost predicate Reaches(version: nat, commands: seq<Command>, s: State) {
    Run(version, commands) == Snapshot(s, version + |commands|)
  }

  /** One more command, decided on the current version with everything it could need. */
  lemma GoOne(version: nat, commands: seq<Command>, source: State, actor: Actor, target: State)
    returns (longer: seq<Command>)
    requires Reaches(version, commands, source) && version + |commands| < MAX_INT64
    requires Permitted(source, Command(actor, target, 0, true, true, true))
    ensures |longer| == |commands| + 1 && Reaches(version, longer, target)
  {
    var s := Run(version, commands);
    var c := Command(actor, target, s.version, true, true, true);
    assert Permitted(source, c);
    longer := commands + [c];
    assert longer[..|commands|] == commands;
    TransitionIff(s, c);
    hide Transition, Permitted;
  }

  /** Success can be reached, through approval, ambiguity, reconciliation and a retry. */
  lemma SuccessIsReachable(version: nat)
    requires version + 12 <= MAX_INT64
    ensures exists commands :: Run(version, commands) == Snapshot(Succeeded, version + |commands|)
  {
    assert Reaches(version, [], Received);
    hide Run, Reaches;
    var run := GoOne(version, [], Received, Ingress, Validated);
    run := GoOne(version, run, Validated, Orchestrator, Authorized);
    run := GoOne(version, run, Authorized, Orchestrator, PreToolPassed);
    run := GoOne(version, run, PreToolPassed, Orchestrator, WaitingForApproval);
    run := GoOne(version, run, WaitingForApproval, Orchestrator, Ready);
    run := GoOne(version, run, Ready, Worker, Executing);
    run := GoOne(version, run, Executing, Worker, Ambiguous);
    run := GoOne(version, run, Ambiguous, Reconciler, Reconciling);
    run := GoOne(version, run, Reconciling, Reconciler, RetryWait);
    run := GoOne(version, run, RetryWait, Worker, Executing);
    run := GoOne(version, run, Executing, Worker, PostTool);
    run := GoOne(version, run, PostTool, Orchestrator, Succeeded);
    WhatReachesMeans(version, run, Succeeded);
  }

  lemma WhatReachesMeans(version: nat, commands: seq<Command>, s: State)
    requires Reaches(version, commands, s)
    ensures Run(version, commands) == Snapshot(s, version + |commands|)
  {
  }

  // ---------------------------------------------------------------- ambiguity and success

  /** The move out of ambiguity: a fenced reconciliation or a recorded resolution. */
  ghost predicate Resolves(version: nat, commands: seq<Command>, k: nat) {
    || (Moved(version, commands, k, Reconciling, RetryWait) && commands[k].currentFence && commands[k].actor.Reconciler?)
    || (Moved(version, commands, k, ManualReview, RetryWait) &&
        commands[k].resolutionRecorded && commands[k].actor.Operator?)
  }

  /** Where an ambiguous invocation stays until it is resolved for another attempt. */
  predicate Unresolved(s: State) {
    s.Ambiguous? || s.Reconciling? || s.ManualReview? || s.PostTool? || Terminal(s)
  }

  lemma LeavesUnresolved(s: Snapshot, c: Command)
    requires Unresolved(s.state) && !Unresolved(Apply(s, c).state)
    ensures Transition(s, c).Ok? && Apply(s, c).state.RetryWait?
    ensures || (s.state.Reconciling? && c.currentFence && c.actor.Reconciler?)
            || (s.state.ManualReview? && c.resolutionRecorded && c.actor.Operator?)
  {
  }

  lemma {:induction false} StaysUnresolved(version: nat, commands: seq<Command>, i: nat, j: nat)
    requires i <= j <= |commands| && At(version, commands, i).Ambiguous?
    ensures Unresolved(At(version, commands, j)) || exists k :: i <= k < j && Resolves(version, commands, k)
    decreases j
  {
    hide Run, Apply, Transition;
    if i < j {
      StaysUnresolved(version, commands, i, j - 1);
      StepAt(version, commands, j - 1);
      if Unresolved(At(version, commands, j - 1)) && !Unresolved(At(version, commands, j)) {
        LeavesUnresolved(Run(version, commands[..j - 1]), commands[j - 1]);
        assert Resolves(version, commands, j - 1);
      }
    }
  }

  /** After an ambiguous outcome, nothing executes again until someone resolved it. */
  lemma NoBlindRetry(version: nat, commands: seq<Command>, i: nat, j: nat)
    requires i < j <= |commands| && At(version, commands, i).Ambiguous? && At(version, commands, j).Executing?
    ensures exists k :: i <= k < j && Resolves(version, commands, k)
  {
    StaysUnresolved(version, commands, i, j);
  }

  /** Success, and anything else only execution leads to, was preceded by an execution. */
  lemma {:induction false} SuccessWasExecuted(version: nat, commands: seq<Command>, n: nat)
    requires n <= |commands| && Started(At(version, commands, n))
    ensures exists k :: 0 <= k <= n && At(version, commands, k).Executing?
    decreases n
  {
    if n > 0 {
      hide Transition, Started;
      StepAt(version, commands, n - 1);
      OneStep(Run(version, commands[..n - 1]), commands[n - 1]);
      if Started(At(version, commands, n - 1)) {
        SuccessWasExecuted(version, commands, n - 1);
      } else {
        assert At(version, commands, n).Executing?;
      }
    }
  }

  /** A terminal state is final. */
  lemma {:induction false} TerminalIsFinal(version: nat, commands: seq<Command>, i: nat, j: nat)
    requires i <= j <= |commands| && Terminal(At(version, commands, i))
    ensures Run(version, commands[..j]) == Run(version, commands[..i])
    decreases j
  {
    hide Run, Transition, Terminal;
    if i < j {
      TerminalIsFinal(version, commands, i, j - 1);
      StepAt(version, commands, j - 1);
      OneStep(Run(version, commands[..j - 1]), commands[j - 1]);
    }
  }

  // ---------------------------------------------------------------- versions

  ghost predicate Succeeds(version: nat, commands: seq<Command>, i: nat) {
    i < |commands| && Transition(Run(version, commands[..i]), commands[i]).Ok?
  }

  ghost function Successes(version: nat, commands: seq<Command>, n: nat): nat
    requires n <= |commands|
  {
    if n == 0 then 0 else Successes(version, commands, n - 1) + if Succeeds(version, commands, n - 1) then 1 else 0
  }

  /** The version counts the transitions that took effect. */
  lemma {:induction false} VersionCounts(version: nat, commands: seq<Command>, n: nat)
    requires n <= |commands|
    ensures Run(version, commands[..n]).version == version + Successes(version, commands, n)
  {
    if n > 0 {
      hide Transition;
      VersionCounts(version, commands, n - 1);
      StepAt(version, commands, n - 1);
      OneStep(Run(version, commands[..n - 1]), commands[n - 1]);
    }
  }

  lemma {:induction false} VersionGrows(version: nat, commands: seq<Command>, i: nat, j: nat)
    requires i <= j <= |commands|
    ensures Run(version, commands[..i]).version <= Run(version, commands[..j]).version
    decreases j
  {
    if i < j {
      hide Apply, Run;
      VersionGrows(version, commands, i, j - 1);
      StepAt(version, commands, j - 1);
      ApplyGrows(Run(version, commands[..j - 1]), commands[j - 1]);
    }
  }

  lemma ApplyGrows(s: Snapshot, c: Command)
    ensures s.version <= Apply(s, c).version
  {
    OneStep(s, c);
    hide Transition;
  }

  /** Two commands decided on the same version cannot both take effect. */
  lemma OnePerVersion(version: nat, commands: seq<Command>, i: nat, j: nat)
    requires i < j && Succeeds(version, commands, i) && Succeeds(version, commands, j)
    ensures commands[i].expectedVersion < commands[j].expectedVersion
  {
    hide Transition;
    StepAt(version, commands, i);
    OneStep(Run(version, commands[..i]), commands[i]);
    OneStep(Run(version, commands[..j]), commands[j]);
    VersionGrows(version, commands, i + 1, j);
  }
}
